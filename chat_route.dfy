/** The chat endpoint of `app/api/chat/route.ts` (`POST`): it validates the
    request, formats the earlier turns as a transcript, and hands the last
    message to the answer pipeline, answering with the pipeline's stream or
    with a JSON error. */
module ChatRoute {
  import opened Wrappers
  import opened Strings
  import opened Rag

  const NoMessages := "No messages provided"
  const EmptyQuestion := "Empty question provided"
  const UnexpectedError := "An unexpected error occurred"
  const HistorySeparator := "\n"

  /** The model the route builds for the answer: streaming, default temperature. */
  const StreamingModel := ModelConfig("gpt-3.5-turbo", None, true)

  datatype Message = Message(role: string, content: string)

  /** The parsed JSON body; an absent (or null) field is None. */
  datatype RequestBody = RequestBody(messages: Option<seq<Message>>, locale: Option<string>)

  datatype Response =
    | DataStream(stream: AnswerStream)
    | JsonError(status: int, error: string)

  /** The response and, in order, the collaborator calls made for it. */
  datatype RouteRun = RouteRun(calls: seq<Call>, response: Response)

  /** The label a transcript line starts with. */
  function SpeakerLabel(role: string): (speaker: string)
    ensures speaker == "Human" <==> role == "user"
    ensures speaker == "Human" || speaker == "Assistant"
  {
    if role == "user" then "Human" else "Assistant"
  }

  /** One transcript line: the speaker's label, a colon and a space, and the
      content as it was sent. */
  function HistoryLine(m: Message): (line: string)
    ensures m.role == "user" ==> line == "Human: " + m.content
    ensures m.role != "user" ==> line == "Assistant: " + m.content
  {
    SpeakerLabel(m.role) + ": " + m.content
  }

  /** `messages.slice(0, -1)`: every message but the last. */
  function Previous(messages: seq<Message>): (prev: seq<Message>)
    ensures prev <= messages
    ensures |messages| > 0 ==> |prev| == |messages| - 1
    ensures |messages| == 0 ==> prev == []
  {
    if |messages| == 0 then [] else messages[..|messages| - 1]
  }

  function HistoryLines(messages: seq<Message>): (lines: seq<string>)
    ensures |lines| == |Previous(messages)|
    ensures forall i :: 0 <= i < |lines| ==> lines[i] == HistoryLine(messages[i])
  {
    var prev := Previous(messages);
    seq(|prev|, i requires 0 <= i < |prev| => HistoryLine(prev[i]))
  }

  /** The transcript of every turn before the current one, one line per turn. */
  function FormatHistory(messages: seq<Message>): (history: string)
    ensures history == "" <==> |messages| <= 1
    ensures |messages| >= 2 ==> StartsWith(history, HistoryLine(messages[0]))
  {
    var lines := HistoryLines(messages);
    assert |lines| > 0 ==> |lines[0]| > 0;
    Join(lines, HistorySeparator)
  }

  /** What the route hands to the pipeline once the request is valid. */
  datatype Accepted = Accepted(question: string, history: string, locale: string)

  /** The checks made before anything else runs: a non-empty message list
      and a last message that is not blank. */
  function Validate(body: RequestBody): (v: Result<Accepted>)
    ensures v.Failure? <==> body.messages.GetOr([]) == [] || IsBlank(Last(body.messages.value).content)
    ensures v.Failure? ==> v.error == (if body.messages.GetOr([]) == [] then NoMessages else EmptyQuestion)
    ensures v.Success? ==>
      && v.value.question == Last(body.messages.value).content
      && v.value.history == FormatHistory(body.messages.value)
      && v.value.locale == (if body.locale.Some? then body.locale.value else DefaultLocale)
  {
    var messages := body.messages.GetOr([]);
    var locale := body.locale.GetOr(DefaultLocale);
    if |messages| == 0 then Failure(NoMessages)
    else
      var question := messages[|messages| - 1].content;
      if IsBlank(question) then Failure(EmptyQuestion)
      else Success(Accepted(question, FormatHistory(messages), locale))
  }

  function Last(messages: seq<Message>): Message
    requires |messages| > 0
  {
    messages[|messages| - 1]
  }

  /** `POST`. `body` is None when the request body is not valid JSON;
      `connect` is the outcome of obtaining the Pinecone-backed vector store. */
  function Post(body: Option<RequestBody>, connect: Result<VectorStore>, llm: LanguageModels): (r: RouteRun)
    ensures r.response.JsonError? ==> r.response.status == 400 || r.response.status == 500
    ensures r.response.JsonError? && r.response.status == 400 ==> r.calls == []
    ensures r.response.JsonError? && r.response.status == 500 ==> r.response.error == UnexpectedError
    ensures r.response.JsonError? && r.response.status == 400 <==> body.Some? && Validate(body.value).Failure?
    ensures body.None? || (Validate(body.value).Success? && connect.Failure?) ==>
              r.response == JsonError(500, UnexpectedError)
    ensures body.Some? && Validate(body.value).Success? && connect.Success? ==>
              r == Delegate(Validate(body.value).value, connect.value, llm)
  {
    match body
    case None => RouteRun([], JsonError(500, UnexpectedError))
    case Some(b) =>
      match Validate(b)
      case Failure(e) => RouteRun([], JsonError(400, e))
      case Success(a) =>
        match connect
        case Failure(_) => RouteRun([ConnectVectorStore], JsonError(500, UnexpectedError))
        case Success(store) => Delegate(a, store, llm)
  }

  /** The part of `POST` after validation and connection: run the pipeline
      on the accepted request with the streaming model, and answer with its
      stream, or with 500 when it throws. */
  function Delegate(a: Accepted, store: VectorStore, llm: LanguageModels): (r: RouteRun)
    ensures r.response.JsonError? ==> r.response == JsonError(500, UnexpectedError)
    ensures var run := ProcessUserMessage(ProcessMessageArgs(a.question, a.history, store, StreamingModel, Some(a.locale)), llm);
      && r.calls == [ConnectVectorStore] + run.calls
      && (r.response.DataStream? <==> run.outcome.Success?)
      && (r.response.DataStream? ==> r.response.stream == run.outcome.value)
  {
    var run := ProcessUserMessage(ProcessMessageArgs(a.question, a.history, store, StreamingModel, Some(a.locale)), llm);
    var response := match run.outcome
      case Success(stream) => DataStream(stream)
      case Failure(_) => JsonError(500, UnexpectedError);
    RouteRun([ConnectVectorStore] + run.calls, response)
  }

  /** A missing or empty message list is refused with 400 before any model
      or store call. */
  lemma NoMessagesRejected(b: RequestBody, connect: Result<VectorStore>, llm: LanguageModels)
    requires b.messages == None || b.messages == Some([])
    ensures Post(Some(b), connect, llm) == RouteRun([], JsonError(400, NoMessages))
  {
  }

  /** A last message that is empty or only whitespace is refused with 400
      before any model or store call. */
  lemma BlankQuestionRejected(b: RequestBody, connect: Result<VectorStore>, llm: LanguageModels)
    requires b.messages.Some? && |b.messages.value| > 0
    requires AllWhitespace(Last(b.messages.value).content)
    ensures Post(Some(b), connect, llm) == RouteRun([], JsonError(400, EmptyQuestion))
  {
  }

  /** Once validated, a request is answered by `Delegate`. */
  lemma AcceptedIsDelegated(b: RequestBody, a: Accepted, store: VectorStore, llm: LanguageModels)
    requires Validate(b) == Success(a)
    ensures Post(Some(b), Success(store), llm) == Delegate(a, store, llm)
  {
  }

  /** An accepted request reaches the rewrite step with its question and
      transcript, in its locale's language; the response is a stream exactly
      when the answer step was reached and started. */
  lemma DelegatePassesRequest(a: Accepted, store: VectorStore, llm: LanguageModels)
    ensures var r := Delegate(a, store, llm);
      && |r.calls| >= 2 && r.calls[0] == ConnectVectorStore && r.calls[1].Invoke?
      && r.calls[1].invocation.inputs == map[UserPromptVar := a.question, HistoryVar := a.history]
      && (r.calls[1].invocation.template.language == Arabic <==> a.locale == ArabicLocale)
      && (r.response.DataStream? <==> |r.calls| == 4 && llm.stream(r.calls[3].invocation).Success?)
  {
    var args := ProcessMessageArgs(a.question, a.history, store, StreamingModel, Some(a.locale));
    var run := ProcessUserMessage(args, llm);
    assert Delegate(a, store, llm).calls == [ConnectVectorStore] + run.calls;
    RewriteInputs(args, llm);
    ArabicIffLocaleAr(args, llm);
    AnswerUsesContextAndRewrite(args, llm);
  }

  /** A request that passes validation reaches the rewrite step, after the
      store connection, with the accepted question and transcript, in the
      language of the accepted locale; its response is a stream exactly when
      the answer step was reached and started. */
  lemma ValidRequestReachesRewrite(b: RequestBody, a: Accepted, store: VectorStore, llm: LanguageModels)
    requires Validate(b) == Success(a)
    ensures var r := Post(Some(b), Success(store), llm);
      && |r.calls| >= 2 && r.calls[0] == ConnectVectorStore && r.calls[1].Invoke?
      && r.calls[1].invocation.inputs == map[UserPromptVar := a.question, HistoryVar := a.history]
      && (r.calls[1].invocation.template.language == Arabic <==> a.locale == ArabicLocale)
      && (r.response.DataStream? <==> |r.calls| == 4 && llm.stream(r.calls[3].invocation).Success?)
  {
    AcceptedIsDelegated(b, a, store, llm);
    DelegatePassesRequest(a, store, llm);
  }

  /** The transcript never depends on the message being answered. */
  lemma HistoryIgnoresCurrent(earlier: seq<Message>, current: Message, other: Message)
    ensures FormatHistory(earlier + [current]) == FormatHistory(earlier + [other])
  {
    assert Previous(earlier + [current]) == earlier == Previous(earlier + [other]);
  }

  /** A request with a single message has an empty transcript. */
  lemma SingleMessageEmptyHistory(m: Message)
    ensures FormatHistory([m]) == ""
  {
  }

  /** When the conversation grows by one turn, the transcript grows by one
      line at the end: earlier lines keep their order. */
  lemma HistoryGrowsByOneLine(earlier: seq<Message>, m: Message, next: Message, current: Message)
    requires |earlier| > 0
    ensures FormatHistory(earlier + [m, current]) == FormatHistory(earlier + [next]) + "\n" + HistoryLine(m)
  {
    var lines := HistoryLines(earlier + [next]);
    assert lines == seq(|earlier|, i requires 0 <= i < |earlier| => HistoryLine(earlier[i]));
    assert HistoryLines(earlier + [m, current]) == lines + [HistoryLine(m)];
    JoinAppend(lines, HistoryLine(m), HistorySeparator);
  }

  /** Line `i` of the transcript is turn `i`, labelled by its role, at its
      offset, followed by a single newline unless it is the last line. */
  lemma HistoryLineAt(messages: seq<Message>, i: nat)
    requires i + 1 < |messages|
    ensures var lines := HistoryLines(messages);
      var start := JoinOffset(lines, HistorySeparator, i);
      var line := SpeakerLabel(messages[i].role) + ": " + messages[i].content;
      && start + |line| <= |FormatHistory(messages)|
      && FormatHistory(messages)[start..start + |line|] == line
      && (i + 2 < |messages| ==>
            JoinOffset(lines, HistorySeparator, i + 1) <= |FormatHistory(messages)| &&
            FormatHistory(messages)[start + |line|..JoinOffset(lines, HistorySeparator, i + 1)] == "\n")
  {
    JoinPartAt(HistoryLines(messages), HistorySeparator, i);
    if i + 2 < |messages| {
      JoinSeparatorAt(HistoryLines(messages), HistorySeparator, i);
    }
  }

  /** When no content holds a newline, splitting the transcript on newlines
      gives back one line per earlier turn, in order. */
  lemma HistorySplitsIntoTurns(messages: seq<Message>)
    requires |messages| >= 2
    requires forall i :: 0 <= i < |messages| - 1 ==> '\n' !in messages[i].content
    ensures Split(FormatHistory(messages), '\n') ==
            seq(|messages| - 1, i requires 0 <= i < |messages| - 1 =>
                  SpeakerLabel(messages[i].role) + ": " + messages[i].content)
  {
    var lines := HistoryLines(messages);
    forall i | 0 <= i < |lines| ensures '\n' !in lines[i] {
      var tag := SpeakerLabel(messages[i].role);
      assert lines[i] == tag + ": " + messages[i].content;
      assert '\n' !in tag + ": ";
    }
    SplitJoin(lines, '\n');
  }
}
