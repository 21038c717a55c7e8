/** src/quiz/QuizMaker.js: the zod schema a generated quiz must satisfy, the
    chat-completion request built from a pull request, the classification of
    one completion (no content, unparsable or off-schema, or a quiz), and
    generation through withRetry.

    `JSON.parse`, the text of zod's errors and the AI client are inputs: the
    client is a function from the request and the call number to its reply. */
module QuizMaker {
  import opened Common
  import opened Retry
  import opened PullRequests
  import opened PullRequestReader

  // ---------------------------------------------------------------------------
  // JSON values and the quiz schema
  // ---------------------------------------------------------------------------

  /** A value as `JSON.parse` produces it; an object is a map from keys to values. */
  datatype Json =
    | JNull
    | JBool(b: bool)
    | JNumber(n: real)
    | JString(s: string)
    | JArray(items: seq<Json>)
    | JObject(fields: map<string, Json>)

  /** The object has `key`, and its value is a string. */
  predicate HasString(v: Json, key: string) {
    v.JObject? && key in v.fields && v.fields[key].JString?
  }

  /** The `Choices` schema: an object with string properties a, b, c and d.
      Other properties are allowed. */
  predicate IsChoices(v: Json) {
    HasString(v, "a") && HasString(v, "b") && HasString(v, "c") && HasString(v, "d")
  }

  /** The `MultipleChoiceQuestion` schema. The answer is any string: nothing
      ties it to one of the four labels. */
  predicate IsQuestion(v: Json) {
    && HasString(v, "question")
    && "choices" in v.fields && IsChoices(v.fields["choices"])
    && HasString(v, "answer")
  }

  /** The `Quiz` schema: an object whose `questions` is an array, of any
      length, of questions. */
  predicate IsQuiz(v: Json) {
    && v.JObject? && "questions" in v.fields && v.fields["questions"].JArray?
    && forall i :: 0 <= i < |v.fields["questions"].items| ==>
         IsQuestion(v.fields["questions"].items[i])
  }

  /** The typed value a successful `Quiz.parse` describes. */
  datatype Choices = Choices(a: string, b: string, c: string, d: string)
  datatype Question = Question(question: string, choices: Choices, answer: string)
  datatype Quiz = Quiz(questions: seq<Question>)

  /** `v[key]` when it is a string. */
  function StringProperty(v: Json, key: string): Option<string> {
    if HasString(v, key) then Some(v.fields[key].s) else None
  }

  function ParseChoices(v: Json): (r: Option<Choices>)
    ensures r.Some? <==> IsChoices(v)
  {
    var a :- StringProperty(v, "a");
    var b :- StringProperty(v, "b");
    var c :- StringProperty(v, "c");
    var d :- StringProperty(v, "d");
    Some(Choices(a, b, c, d))
  }

  function ParseQuestion(v: Json): (r: Option<Question>)
    ensures r.Some? <==> IsQuestion(v)
    ensures r.Some? ==> r.value.answer == v.fields["answer"].s
  {
    var question :- StringProperty(v, "question");
    var choices :- if v.JObject? && "choices" in v.fields then ParseChoices(v.fields["choices"]) else None;
    var answer :- StringProperty(v, "answer");
    Some(Question(question, choices, answer))
  }

  /** The array check of `z.array(MultipleChoiceQuestion)`, element by element. */
  function ParseQuestions(items: seq<Json>): (r: Option<seq<Question>>)
    ensures r.Some? <==> forall i :: 0 <= i < |items| ==> IsQuestion(items[i])
    ensures r.Some? ==> |r.value| == |items|
    ensures r.Some? ==> forall i :: 0 <= i < |items| ==> ParseQuestion(items[i]) == Some(r.value[i])
  {
    if items == [] then Some([])
    else
      var first :- ParseQuestion(items[0]);
      var rest :- ParseQuestions(items[1..]);
      assert forall i :: 1 <= i < |items| ==> items[i] == items[1..][i - 1];
      Some([first] + rest)
  }

  /** `Quiz.parse(v)`: the typed quiz, or None where zod throws. */
  function ParseQuiz(v: Json): (r: Option<Quiz>)
    ensures r.Some? <==> IsQuiz(v)
    ensures r.Some? ==> |r.value.questions| == |v.fields["questions"].items|
  {
    if v.JObject? && "questions" in v.fields && v.fields["questions"].JArray? then
      var questions :- ParseQuestions(v.fields["questions"].items);
      Some(Quiz(questions))
    else
      None
  }

  function ChoicesToJson(c: Choices): Json {
    JObject(map["a" := JString(c.a), "b" := JString(c.b), "c" := JString(c.c), "d" := JString(c.d)])
  }

  function QuestionToJson(q: Question): Json {
    JObject(map["question" := JString(q.question), "choices" := ChoicesToJson(q.choices),
                "answer" := JString(q.answer)])
  }

  function QuestionsToJson(qs: seq<Question>): (items: seq<Json>)
    ensures |items| == |qs|
  {
    seq(|qs|, i requires 0 <= i < |qs| => QuestionToJson(qs[i]))
  }

  /** The JSON text a model is asked to produce, as a value. */
  function QuizToJson(q: Quiz): Json {
    JObject(map["questions" := JArray(QuestionsToJson(q.questions))])
  }

  lemma ParseQuestionToJson(q: Question)
    ensures ParseQuestion(QuestionToJson(q)) == Some(q)
  {
    var v := QuestionToJson(q);
    assert StringProperty(v, "question") == Some(q.question);
    assert ParseChoices(v.fields["choices"]) == Some(q.choices);
    assert StringProperty(v, "answer") == Some(q.answer);
  }

  lemma {:induction false} ParseQuestionsToJson(qs: seq<Question>)
    ensures ParseQuestions(QuestionsToJson(qs)) == Some(qs)
  {
    if qs != [] {
      var items := QuestionsToJson(qs);
      QuestionsToJsonTail(qs);
      ParseQuestionToJson(qs[0]);
      ParseQuestionsToJson(qs[1..]);
      ParseQuestionsCons(items, qs[0], qs[1..]);
      assert [qs[0]] + qs[1..] == qs;
    }
  }

  lemma QuestionsToJsonTail(qs: seq<Question>)
    requires qs != []
    ensures QuestionsToJson(qs)[0] == QuestionToJson(qs[0])
    ensures QuestionsToJson(qs)[1..] == QuestionsToJson(qs[1..])
  {
  }

  lemma ParseQuestionsCons(items: seq<Json>, first: Question, rest: seq<Question>)
    requires items != []
    requires ParseQuestion(items[0]) == Some(first)
    requires ParseQuestions(items[1..]) == Some(rest)
    ensures ParseQuestions(items) == Some([first] + rest)
  {
  }

  /** Every typed quiz, written as JSON, passes the schema and parses back to itself. */
  lemma ParseQuizToJson(q: Quiz)
    ensures IsQuiz(QuizToJson(q))
    ensures ParseQuiz(QuizToJson(q)) == Some(q)
  {
    ParseQuestionsToJson(q.questions);
  }

  // ---------------------------------------------------------------------------
  // The request
  // ---------------------------------------------------------------------------

  datatype ChatMessage = ChatMessage(role: string, content: string)

  datatype RequestBody = RequestBody(
    model: string, messages: seq<ChatMessage>, temperature: real, maxTokens: nat)

  /** What the AI client does with one request: resolve with the completion
      (as parsed JSON) or throw. */
  datatype ClientReply = Replied(completion: Json) | Threw(message: string)

  /** The constructor's three arguments. A model that is undefined is None. */
  datatype QuizMaker = QuizMaker(
    model: Option<string>,
    aiClient: (RequestBody, nat) -> ClientReply,
    systemPrompt: string)

  const DefaultModel := "openai/gpt-4.1"
  const Instruction :=
    "\n\nGenerate 3-5 multiple choice questions that test understanding of this pull request."

  /** `this.model || 'openai/gpt-4.1'`: an undefined or empty model name is falsy. */
  function ModelName(model: Option<string>): (m: string)
    ensures m != ""
    ensures model.Some? && model.value != "" ==> m == model.value
    ensures model.None? || model.value == "" ==> m == DefaultModel
  {
    if model.Some? && model.value != "" then model.value else DefaultModel
  }

  function Prompt(pr: PullRequest): string {
    ToXML(pr) + Instruction
  }

  function BuildRequest(qm: QuizMaker, pr: PullRequest): (body: RequestBody)
    ensures body.model == ModelName(qm.model)
    ensures |body.messages| == 2
    ensures body.messages[0] == ChatMessage("system", qm.systemPrompt)
    ensures body.messages[1] == ChatMessage("user", ToXML(pr) + Instruction)
    ensures body.temperature == 0.7 && body.maxTokens == 1024
  {
    RequestBody(
      ModelName(qm.model),
      [ChatMessage("system", qm.systemPrompt), ChatMessage("user", Prompt(pr))],
      0.7,
      1024)
  }

  /** The user message starts with the pull request's serialisation, which
      reads back as the pull request, and ends with the fixed instruction. */
  lemma PromptCarriesPullRequest(qm: QuizMaker, pr: PullRequest)
    requires RawFieldsPlain(pr)
    ensures var u := BuildRequest(qm, pr).messages[1].content;
      && |u| == |ToXML(pr)| + |Instruction|
      && ReadPullRequest(u[..|ToXML(pr)|]) == Some(ViewOf(pr))
      && u[|ToXML(pr)|..] == Instruction
  {
    var u := BuildRequest(qm, pr).messages[1].content;
    assert u[..|ToXML(pr)|] == ToXML(pr);
    ReadToXML(pr);
  }

  // ---------------------------------------------------------------------------
  // Classifying one completion
  // ---------------------------------------------------------------------------

  /** `v[key]` for a value that is not null or undefined, for the named
      properties the handler reads; None stands for undefined. */
  function Property(v: Json, key: string): Option<Json> {
    if v.JObject? && key in v.fields then Some(v.fields[key]) else None
  }

  /** `v?.[0]`: the first element of an array, property "0" of an object, the
      first character of a string; undefined otherwise. */
  function ElementZero(v: Json): Option<Json> {
    match v
    case JArray(items) => if items == [] then None else Some(items[0])
    case JObject(fields) => if "0" in fields then Some(fields["0"]) else None
    case JString(s) => if s == "" then None else Some(JString([s[0]]))
    case _ => None
  }

  /** `completion.choices?.[0]?.message?.content` for a completion that is not null. */
  function Content(completion: Json): Option<Json> {
    var choices :- Property(completion, "choices");
    var first :- ElementZero(choices);
    var message :- Property(first, "message");
    Property(message, "content")
  }

  /** JavaScript truthiness of a present value. */
  predicate Truthy(v: Json) {
    match v
    case JNull => false
    case JBool(b) => b
    case JNumber(n) => n != 0.0
    case JString(s) => s != ""
    case _ => true
  }

  /** `completion.usage || {}`. */
  function Usage(completion: Json): (u: Json)
    ensures Truthy(u)
    ensures var p := Property(completion, "usage");
      p.Some? && Truthy(p.value) ==> u == p.value
    ensures var p := Property(completion, "usage");
      !(p.Some? && Truthy(p.value)) ==> u == JObject(map[])
  {
    match Property(completion, "usage")
    case Some(u) => if Truthy(u) then u else JObject(map[])
    case None => JObject(map[])
  }

  /** What `JSON.parse` does with the content (which it first turns into text). */
  datatype ParseOutcome = Parsed(value: Json) | SyntaxError(message: string)

  /** The two foreign pieces of the handler: `JSON.parse`, and the message of
      the error zod throws for a value that does not fit the schema. */
  datatype JsonRuntime = JsonRuntime(parse: Json -> ParseOutcome, schemaMessage: Json -> string)

  /** What one successful attempt resolves with: the parsed value itself (not
      zod's copy of it) and the usage. */
  datatype Generated = Generated(quiz: Json, usage: Json)

  const NoQuestionsMessage := "Failed to generate questions"
  const ParseFailurePrefix := "Failed to parse quiz JSON: "
  /** The TypeError a V8 engine throws on `null.choices`. */
  const NullCompletionMessage := "Cannot read properties of null (reading 'choices')"

  /** One run of the function handed to withRetry, once the client has replied. */
  function Attempt(rt: JsonRuntime, reply: ClientReply): Outcome<Generated> {
    match reply
    case Threw(m) => Failure(m)
    case Replied(completion) =>
      if completion.JNull? then Failure(NullCompletionMessage)
      else
        var content := Content(completion);
        if content.None? || !Truthy(content.value) then Failure(NoQuestionsMessage)
        else
          match rt.parse(content.value)
          case SyntaxError(m) => Failure(ParseFailurePrefix + m)
          case Parsed(v) =>
            if ParseQuiz(v).None? then Failure(ParseFailurePrefix + rt.schemaMessage(v))
            else Success(Generated(v, Usage(completion)))
  }

  /** A missing, empty or otherwise falsy content throws "Failed to generate questions". */
  lemma NoContentFails(rt: JsonRuntime, completion: Json)
    requires !completion.JNull?
    requires Content(completion).None? || !Truthy(Content(completion).value)
    ensures Attempt(rt, Replied(completion)) == Failure(NoQuestionsMessage)
  {
  }

  /** Content that does not parse, or parses to a value outside the schema,
      throws an error whose message starts "Failed to parse quiz JSON: ". */
  lemma InvalidContentFails(rt: JsonRuntime, completion: Json)
    requires !completion.JNull?
    requires Content(completion).Some? && Truthy(Content(completion).value)
    requires var p := rt.parse(Content(completion).value); p.SyntaxError? || !IsQuiz(p.value)
    ensures var o := Attempt(rt, Replied(completion));
      o.Failure? && |o.message| >= |ParseFailurePrefix| && o.message[..|ParseFailurePrefix|] == ParseFailurePrefix
  {
  }

  /** An attempt succeeds exactly when the content is truthy and parses to a
      value in the schema; it then yields that value and the usage or `{}`. */
  lemma AttemptSucceeds(rt: JsonRuntime, reply: ClientReply)
    ensures Attempt(rt, reply).Success? <==>
      && reply.Replied? && !reply.completion.JNull?
      && Content(reply.completion).Some? && Truthy(Content(reply.completion).value)
      && rt.parse(Content(reply.completion).value).Parsed?
      && IsQuiz(rt.parse(Content(reply.completion).value).value)
    ensures Attempt(rt, reply).Success? ==>
      Attempt(rt, reply).value
        == Generated(rt.parse(Content(reply.completion).value).value, Usage(reply.completion))
  {
  }

  /** `{"questions": [{question, choices: {a, b}, answer}]}`: a question without c and d. */
  function TwoChoiceQuiz(): Json {
    JObject(map["questions" := JArray([JObject(map[
      "question" := JString("Q"),
      "choices" := JObject(map["a" := JString("x"), "b" := JString("y")]),
      "answer" := JString("a")])])])
  }

  /** A question missing choices c and d fails the schema, so the attempt
      throws "Failed to parse quiz JSON: ..." and yields no quiz. */
  lemma MissingChoicesRejected(rt: JsonRuntime, completion: Json)
    requires !completion.JNull?
    requires Content(completion).Some? && Truthy(Content(completion).value)
    requires rt.parse(Content(completion).value) == Parsed(TwoChoiceQuiz())
    ensures !IsQuiz(TwoChoiceQuiz())
    ensures Attempt(rt, Replied(completion))
         == Failure(ParseFailurePrefix + rt.schemaMessage(TwoChoiceQuiz()))
  {
    var q := TwoChoiceQuiz().fields["questions"].items[0];
    assert !IsChoices(q.fields["choices"]);
  }

  /** The schema bounds neither the number of questions nor the answer: an
      empty quiz and an answer "e" both pass. */
  lemma SchemaIsLoose()
    ensures IsQuiz(JObject(map["questions" := JArray([])]))
    ensures IsQuiz(QuizToJson(Quiz([Question("Q", Choices("1", "2", "3", "4"), "e")])))
  {
    ParseQuizToJson(Quiz([Question("Q", Choices("1", "2", "3", "4"), "e")]));
  }

  // ---------------------------------------------------------------------------
  // Generation
  // ---------------------------------------------------------------------------

  /** The options passed to withRetry; shouldRetry is left at its default. */
  const GenerationRetry := RetryOptions(Some(3), Some(1000), None)

  /** Call i of the retried function: build the request, call the client and
      classify its reply. */
  function GenerationAttempts(qm: QuizMaker, rt: JsonRuntime, pr: PullRequest): nat -> Outcome<Generated> {
    var body := BuildRequest(qm, pr);
    (i: nat) => Attempt(rt, qm.aiClient(body, i))
  }

  /** `generateQuizForPullRequest`. The client is called at most four times,
      with the same request every time. */
  method GenerateQuizForPullRequest(qm: QuizMaker, rt: JsonRuntime, pr: PullRequest)
    returns (r: Run<Generated>)
    ensures r == RunWithRetry(GenerationAttempts(qm, rt, pr), GenerationRetry)
    ensures 1 <= r.invocations <= 4
    ensures r.delays == [1000, 2000, 4000][..r.invocations - 1]
  {
    r := WithRetry(GenerationAttempts(qm, rt, pr), GenerationRetry);
    GenerationDelays(GenerationAttempts(qm, rt, pr));
  }

  lemma GenerationDelays(op: nat -> Outcome<Generated>)
    ensures var r := RunWithRetry(op, GenerationRetry);
      1 <= r.invocations <= 4 && r.delays == [1000, 2000, 4000][..r.invocations - 1]
  {
    var p := ResolveOptions(GenerationRetry);
    var r := RunFrom(op, p, 0);
    assert Delay(p, 0) == 1000 && Delay(p, 1) == 2000 && Delay(p, 2) == 4000 by {
      assert Pow2(1) == 2 && Pow2(2) == 4;
    }
  }

  /** When every attempt fails, generation rejects after four calls and
      7000 ms of waiting, with the last attempt's message. */
  lemma GenerationGivesUp(op: nat -> Outcome<Generated>)
    requires forall i :: op(i).Failure?
    ensures var r := RunWithRetry(op, GenerationRetry);
      && r.invocations == 4
      && r.outcome == Failure(FailureMessage(3, op(3).message))
      && Sum(r.delays) == 7000
  {
    var p := ResolveOptions(GenerationRetry);
    AlwaysFailing(op, p);
    assert Pow2(3) == 8 by {
      assert Pow2(1) == 2 && Pow2(2) == 4;
    }
  }
}
