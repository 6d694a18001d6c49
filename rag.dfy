/** The retrieval-augmented answer pipeline of `utils/langchain.ts`
    (`processUserMessage`, `getInquiryPrompt`, `getQAPrompt`).

    The language model and the vector store are collaborators passed in as
    function values: the model is not interpreted, only the calls made to it.
    A run returns the calls it made, in order, with its outcome, so that the
    wiring (which call receives what, and in which order) can be stated. */
module Rag {
  import opened Wrappers
  import opened Strings

  const DefaultLocale := "en"
  const ArabicLocale := "ar"
  /** Number of passages requested from the similarity search. */
  const SearchK := 3
  /** Separator placed between retrieved passages in the context. */
  const PassageSeparator := "\n\n"
  /** The message of the error the pipeline throws when rewriting or
      retrieval fails. */
  const FailedToProcess := "Failed to process your message"

  // Names of the template input variables.
  const UserPromptVar := "userPrompt"
  const HistoryVar := "conversationHistory"
  const ContextVar := "context"
  const QuestionVar := "question"

  /** The options a `ChatOpenAI` client is constructed with; a temperature
      of None leaves the provider's default. */
  datatype ModelConfig = ModelConfig(modelName: string, temperature: Option<real>, streaming: bool)

  /** The deterministic, non-streaming model that rewrites the question. */
  const InquiryModel := ModelConfig("gpt-3.5-turbo", Some(0.0), false)

  datatype Language = English | Arabic
  datatype Step = QueryRewrite | AnswerSynthesis

  /** A piece of a prompt message: literal text, a block of instruction prose
      (whose wording is not modelled), or a `{name}` input variable. */
  datatype Segment =
    | Text(text: string)
    | Prose(language: Language, step: Step, part: nat)
    | Slot(name: string)

  datatype Speaker = SystemSpeaker | HumanSpeaker
  datatype PromptMessage = PromptMessage(speaker: Speaker, segments: seq<Segment>)
  datatype PromptTemplate = PromptTemplate(language: Language, messages: seq<PromptMessage>)

  /** A passage returned by the similarity search; metadata is not modelled. */
  datatype Document = Document(pageContent: string)

  /** What the model receives: its configuration, the template, and the
      values of the template's variables. */
  datatype Invocation = Invocation(config: ModelConfig, template: PromptTemplate, inputs: map<string, string>)

  /** The lazily produced answer, seen as the fragments it yields. */
  datatype AnswerStream = AnswerStream(fragments: seq<string>)

  datatype VectorStore = VectorStore(similaritySearch: (string, nat) -> Result<seq<Document>>)

  /** `template.pipe(model).pipe(new StringOutputParser())` followed by
      `invoke` (a single string) or `stream` (an answer stream). */
  datatype LanguageModels = LanguageModels(
    invoke: Invocation -> Result<string>,
    stream: Invocation -> Result<AnswerStream>)

  /** A call to a collaborator, as recorded in a run. `ConnectVectorStore`
      is made by the chat route before the pipeline starts. */
  datatype Call =
    | ConnectVectorStore
    | Invoke(invocation: Invocation)
    | SimilaritySearch(query: string, k: nat)
    | Stream(invocation: Invocation)

  datatype Run<+T> = Run(calls: seq<Call>, outcome: Result<T>)

  datatype ProcessMessageArgs = ProcessMessageArgs(
    userPrompt: string,
    conversationHistory: string,
    vectorStore: VectorStore,
    model: ModelConfig,
    locale: Option<string>)

  function LanguageOf(isArabic: bool): Language {
    if isArabic then Arabic else English
  }

  /** The input variables a template refers to. */
  function SegmentSlots(segments: seq<Segment>): set<string> {
    set i | 0 <= i < |segments| && segments[i].Slot? :: segments[i].name
  }

  function Slots(t: PromptTemplate): set<string> {
    set i, name | 0 <= i < |t.messages| && name in SegmentSlots(t.messages[i].segments) :: name
  }

  /** Every prose block of the template is written in the template's language. */
  predicate ProseIn(t: PromptTemplate, language: Language) {
    forall i, j ::
      0 <= i < |t.messages| && 0 <= j < |t.messages[i].segments| && t.messages[i].segments[j].Prose?
      ==> t.messages[i].segments[j].language == language
  }

  /** `getInquiryPrompt`: a system message of rewriting instructions and a
      human message carrying the user prompt and the conversation log. */
  function InquiryPrompt(isArabic: bool): (t: PromptTemplate)
    ensures t.language == LanguageOf(isArabic) && ProseIn(t, t.language)
    ensures Slots(t) == {UserPromptVar, HistoryVar}
    ensures |t.messages| == 2 && t.messages[0].speaker == SystemSpeaker && t.messages[1].speaker == HumanSpeaker
  {
    var lang := LanguageOf(isArabic);
    var human :=
      if isArabic then
        [Text("سؤال المستخدم: "), Slot(UserPromptVar), Text("\n\nسجل المحادثة: "), Slot(HistoryVar)]
      else
        [Text("USER PROMPT: "), Slot(UserPromptVar), Text("\n\nCONVERSATION LOG: "), Slot(HistoryVar)];
    var t := PromptTemplate(lang, [
      PromptMessage(SystemSpeaker, [Prose(lang, QueryRewrite, 0)]),
      PromptMessage(HumanSpeaker, human)]);
    assert SegmentSlots(t.messages[0].segments) == {};
    assert SegmentSlots(human) == {UserPromptVar, HistoryVar} by {
      assert human[1].name == UserPromptVar && human[3].name == HistoryVar;
    }
    assert Slots(t) == SegmentSlots(t.messages[0].segments) + SegmentSlots(t.messages[1].segments);
    t
  }

  /** `getQAPrompt`: a system message of answering instructions with the
      retrieved context in the middle, and a human message with the question. */
  function QaPrompt(isArabic: bool): (t: PromptTemplate)
    ensures t.language == LanguageOf(isArabic) && ProseIn(t, t.language)
    ensures Slots(t) == {ContextVar, QuestionVar}
    ensures |t.messages| == 2 && t.messages[0].speaker == SystemSpeaker && t.messages[1].speaker == HumanSpeaker
  {
    var lang := LanguageOf(isArabic);
    var system := [Prose(lang, AnswerSynthesis, 0), Slot(ContextVar), Prose(lang, AnswerSynthesis, 1)];
    var human :=
      if isArabic then [Text("السؤال: "), Slot(QuestionVar)]
      else [Text("Question: "), Slot(QuestionVar)];
    var t := PromptTemplate(lang, [PromptMessage(SystemSpeaker, system), PromptMessage(HumanSpeaker, human)]);
    assert SegmentSlots(system) == {ContextVar} by {
      assert system[1].name == ContextVar;
    }
    assert SegmentSlots(human) == {QuestionVar} by {
      assert human[1].name == QuestionVar;
    }
    assert Slots(t) == SegmentSlots(t.messages[0].segments) + SegmentSlots(t.messages[1].segments);
    t
  }

  function PageContents(docs: seq<Document>): (texts: seq<string>)
    ensures |texts| == |docs| && forall i :: 0 <= i < |docs| ==> texts[i] == docs[i].pageContent
  {
    seq(|docs|, i requires 0 <= i < |docs| => docs[i].pageContent)
  }

  /** The context handed to the answer step: the passages in the order the
      search returned them, separated by a blank line. */
  function Context(docs: seq<Document>): (context: string)
    ensures docs == [] ==> context == ""
    ensures docs != [] ==> StartsWith(context, docs[0].pageContent)
    ensures |docs| == 1 ==> context == docs[0].pageContent
  {
    Join(PageContents(docs), PassageSeparator)
  }

  /** `processUserMessage`: rewrite the question, search with the rewrite,
      then stream an answer to the rewrite from the retrieved context. A
      failure of the rewrite or of the search is rethrown as
      `FailedToProcess`; the answer step's promise is returned without being
      awaited inside the `try`, so its failure is passed on unchanged. */
  function ProcessUserMessage(args: ProcessMessageArgs, llm: LanguageModels): (r: Run<AnswerStream>)
    ensures 1 <= |r.calls| <= 3
    ensures r.calls[0].Invoke?
    ensures |r.calls| >= 2 ==> r.calls[1].SimilaritySearch?
    ensures |r.calls| == 3 ==> r.calls[2].Stream?
    ensures |r.calls| < 3 ==> r.outcome == Failure(FailedToProcess)
  {
    var locale := args.locale.GetOr(DefaultLocale);
    var isArabic := locale == ArabicLocale;
    var inquiry := Invocation(InquiryModel, InquiryPrompt(isArabic),
                              map[UserPromptVar := args.userPrompt, HistoryVar := args.conversationHistory]);
    match llm.invoke(inquiry)
    case Failure(_) => Run([Invoke(inquiry)], Failure(FailedToProcess))
    case Success(question) =>
      match args.vectorStore.similaritySearch(question, SearchK)
      case Failure(_) => Run([Invoke(inquiry), SimilaritySearch(question, SearchK)], Failure(FailedToProcess))
      case Success(docs) =>
        var answer := Invocation(args.model, QaPrompt(isArabic),
                                 map[ContextVar := Context(docs), QuestionVar := question]);
        Run([Invoke(inquiry), SimilaritySearch(question, SearchK), Stream(answer)], llm.stream(answer))
  }

  /** The rewrite step receives exactly the user prompt and the conversation
      history, through the deterministic non-streaming model. */
  lemma RewriteInputs(args: ProcessMessageArgs, llm: LanguageModels)
    ensures var inv := ProcessUserMessage(args, llm).calls[0].invocation;
      && inv.config == InquiryModel && inv.config.temperature == Some(0.0) && !inv.config.streaming
      && inv.inputs == map[UserPromptVar := args.userPrompt, HistoryVar := args.conversationHistory]
      && inv.inputs.Keys == Slots(inv.template)
  {
  }

  /** The search runs on what the rewrite returned, with k = 3, and only
      after the rewrite succeeded. */
  lemma SearchUsesRewrite(args: ProcessMessageArgs, llm: LanguageModels)
    ensures var r := ProcessUserMessage(args, llm);
      && (|r.calls| >= 2 <==> llm.invoke(r.calls[0].invocation).Success?)
      && (|r.calls| >= 2 ==> llm.invoke(r.calls[0].invocation) == Success(r.calls[1].query) && r.calls[1].k == 3)
  {
  }

  /** The answer step runs only after the search succeeded; it gets the
      streaming model passed in, the passages joined in returned order, and
      the rewritten question rather than the raw prompt. Its outcome is the
      pipeline's outcome. */
  lemma AnswerUsesContextAndRewrite(args: ProcessMessageArgs, llm: LanguageModels)
    ensures var r := ProcessUserMessage(args, llm);
      |r.calls| >= 2 ==>
        var search := args.vectorStore.similaritySearch(r.calls[1].query, r.calls[1].k);
        && (|r.calls| == 3 <==> search.Success?)
        && (|r.calls| == 3 ==>
              var inv := r.calls[2].invocation;
              && inv.config == args.model
              && inv.inputs == map[ContextVar := Context(search.value), QuestionVar := r.calls[1].query]
              && inv.inputs.Keys == Slots(inv.template)
              && r.outcome == llm.stream(inv))
  {
  }

  /** The rewrite uses `InquiryPrompt` and the answer `QaPrompt`, both the
      Arabic ones exactly when the locale is "ar"; with no locale given, the
      English ones are used. */
  lemma ArabicIffLocaleAr(args: ProcessMessageArgs, llm: LanguageModels)
    ensures var r := ProcessUserMessage(args, llm);
      && (r.calls[0].invocation.template.language == Arabic <==> args.locale == Some(ArabicLocale))
      && (|r.calls| == 3 ==> r.calls[2].invocation.template.language == r.calls[0].invocation.template.language)
      && (args.locale == None ==> r.calls[0].invocation.template.language == English)
      && r.calls[0].invocation.template == InquiryPrompt(args.locale == Some(ArabicLocale))
      && (|r.calls| == 3 ==> r.calls[2].invocation.template == QaPrompt(args.locale == Some(ArabicLocale)))
  {
  }

  /** A search with no hits is not an error: the answer step still runs,
      with an empty context. */
  lemma NoHitsGiveEmptyContext(args: ProcessMessageArgs, llm: LanguageModels)
    requires var r := ProcessUserMessage(args, llm);
      |r.calls| >= 2 && args.vectorStore.similaritySearch(r.calls[1].query, SearchK) == Success([])
    ensures var r := ProcessUserMessage(args, llm);
      |r.calls| == 3 && r.calls[2].invocation.inputs[ContextVar] == ""
  {
  }

  /** Passage `i` of the search result stands in the context at its offset,
      and consecutive passages are separated by exactly a blank line. */
  lemma ContextPassageAt(docs: seq<Document>, i: nat)
    requires i < |docs|
    ensures var texts := PageContents(docs);
      var start := JoinOffset(texts, PassageSeparator, i);
      && start + |docs[i].pageContent| <= |Context(docs)|
      && Context(docs)[start..start + |docs[i].pageContent|] == docs[i].pageContent
      && (i + 1 < |docs| ==>
            JoinOffset(texts, PassageSeparator, i + 1) <= |Context(docs)| &&
            Context(docs)[start + |docs[i].pageContent|..JoinOffset(texts, PassageSeparator, i + 1)] == PassageSeparator)
  {
    JoinPartAt(PageContents(docs), PassageSeparator, i);
    if i + 1 < |docs| {
      JoinSeparatorAt(PageContents(docs), PassageSeparator, i);
    }
  }
}
