/** src/web/createApp.js without the HTTP layer: grading a submission, the
    per-session `attempts`/`answers` state kept by the session middleware,
    the quiz page data, and the pass / try-again / fail decision of
    `POST /submit` together with the callback it fires. */
module WebApp {
  import opened Common
  import opened QuizMaker

  // ---------------------------------------------------------------------------
  // Grading
  // ---------------------------------------------------------------------------

  /** The submitted form: field name to value. */
  type Answers = map<string, string>

  /** The field named by the question's index holds exactly its answer. */
  predicate AnswerMatches(answers: Answers, i: nat, q: Question) {
    NatToString(i) in answers && answers[NatToString(i)] == q.answer
  }

  /** `every` over questions[i..]. */
  function CheckAnswersFrom(answers: Answers, questions: seq<Question>, i: nat): (ok: bool)
    requires i <= |questions|
    ensures ok <==> forall j :: i <= j < |questions| ==> AnswerMatches(answers, j, questions[j])
    decreases |questions| - i
  {
    if i == |questions| then true
    else AnswerMatches(answers, i, questions[i]) && CheckAnswersFrom(answers, questions, i + 1)
  }

  /** `checkAnswers`: every question is answered, under the key String(index),
      with exactly its answer. True for no questions. */
  function CheckAnswers(answers: Answers, questions: seq<Question>): (ok: bool)
    ensures ok <==> forall i :: 0 <= i < |questions| ==> AnswerMatches(answers, i, questions[i])
  {
    CheckAnswersFrom(answers, questions, 0)
  }

  /** A field whose name is not the index of a question plays no part. */
  lemma OtherFieldsIgnored(answers: Answers, questions: seq<Question>, key: string, value: string)
    requires forall i :: 0 <= i < |questions| ==> NatToString(i) != key
    ensures CheckAnswers(answers[key := value], questions) == CheckAnswers(answers, questions)
  {
    var updated := answers[key := value];
    forall i | 0 <= i < |questions|
      ensures AnswerMatches(updated, i, questions[i]) == AnswerMatches(answers, i, questions[i])
    {
    }
  }

  /** In particular, the fields for indices past the last question are ignored. */
  lemma IndicesBeyondIgnored(answers: Answers, questions: seq<Question>, n: nat, value: string)
    requires n >= |questions|
    ensures CheckAnswers(answers[NatToString(n) := value], questions) == CheckAnswers(answers, questions)
  {
    forall i | 0 <= i < |questions|
      ensures NatToString(i) != NatToString(n)
    {
      if NatToString(i) == NatToString(n) {
        NatToStringInjective(i, n);
      }
    }
    OtherFieldsIgnored(answers, questions, NatToString(n), value);
  }

  /** The form that picks labels[i] for question i. */
  function AnswerSheet(labels: seq<string>): Answers
    decreases |labels|
  {
    if labels == [] then map[]
    else AnswerSheet(labels[..|labels| - 1])[NatToString(|labels| - 1) := labels[|labels| - 1]]
  }

  lemma {:induction false} AnswerSheetFields(labels: seq<string>, i: nat)
    ensures NatToString(i) in AnswerSheet(labels) <==> i < |labels|
    ensures i < |labels| ==> AnswerSheet(labels)[NatToString(i)] == labels[i]
    decreases |labels|
  {
    if labels != [] {
      var n := |labels| - 1;
      AnswerSheetFields(labels[..n], i);
      AnswerSheetLast(labels);
      if i != n {
        KeysDiffer(i, n);
      }
    }
  }

  lemma AnswerSheetLast(labels: seq<string>)
    requires labels != []
    ensures AnswerSheet(labels)
         == AnswerSheet(labels[..|labels| - 1])[NatToString(|labels| - 1) := labels[|labels| - 1]]
  {
  }

  /** Distinct indices name distinct fields. */
  lemma KeysDiffer(i: nat, n: nat)
    requires i != n
    ensures NatToString(i) != NatToString(n)
  {
    if NatToString(i) == NatToString(n) {
      NatToStringInjective(i, n);
    }
  }

  /** A filled-in form passes exactly when it covers every question and each
      picked label is that question's answer. */
  lemma AnswerSheetPasses(labels: seq<string>, questions: seq<Question>)
    ensures CheckAnswers(AnswerSheet(labels), questions) <==>
      |labels| >= |questions| && forall i :: 0 <= i < |questions| ==> labels[i] == questions[i].answer
  {
    var sheet := AnswerSheet(labels);
    forall i: nat
      ensures NatToString(i) in sheet <==> i < |labels|
      ensures i < |labels| ==> sheet[NatToString(i)] == labels[i]
    {
      AnswerSheetFields(labels, i);
    }
    if |labels| < |questions| {
      assert !AnswerMatches(sheet, |labels|, questions[|labels|]);
    }
  }

  // ---------------------------------------------------------------------------
  // The decision
  // ---------------------------------------------------------------------------

  /** The arguments of createApp that grading uses. */
  datatype Settings = Settings(questions: seq<Question>, pullRequestUrl: string, maxAttempts: int)

  /** `maxAttempts = 3`: the default applies when the option is undefined. */
  function MaxAttemptsOption(maxAttempts: Option<int>): (m: int)
    ensures maxAttempts.None? ==> m == 3
    ensures maxAttempts.Some? ==> m == maxAttempts.value
  {
    if maxAttempts.Some? then maxAttempts.value else 3
  }

  datatype View =
    | PassView(pullRequestUrl: string, attempts: nat, maxAttempts: int)
    | TryAgainView(pullRequestUrl: string, attemptsLeft: Option<int>)
    | FailView(pullRequestUrl: string)

  datatype Callback = QuizPassed(attempts: nat) | QuizFailed(attempts: nat) | NoCallback

  /** The view rendered and the callback fired by one submission. */
  datatype Response = Response(view: View, callback: Callback)

  /** `maxAttempts > 0 ? maxAttempts - attempts : Math.Infinity`. `Math.Infinity`
      is not a property of Math, so the second arm is undefined (None). */
  function AttemptsLeft(maxAttempts: int, attempts: nat): (left: Option<int>)
    ensures left.Some? <==> maxAttempts > 0
    ensures left.Some? ==> left.value == maxAttempts - attempts
  {
    if maxAttempts > 0 then Some(maxAttempts - attempts) else None
  }

  /** `attemptsLeft <= 0`; undefined compares as NaN, so never. */
  predicate NoneLeft(left: Option<int>) {
    left.Some? && left.value <= 0
  }

  /** The branch of the handler taken once attempts holds its new value. */
  function Decide(s: Settings, correct: bool, attempts: nat): (r: Response)
    ensures correct ==> r == Response(PassView(s.pullRequestUrl, attempts, s.maxAttempts), QuizPassed(attempts))
    ensures !correct && s.maxAttempts > 0 && attempts >= s.maxAttempts ==>
      r == Response(FailView(s.pullRequestUrl), QuizFailed(attempts))
    ensures !correct && s.maxAttempts > 0 && attempts < s.maxAttempts ==>
      r == Response(TryAgainView(s.pullRequestUrl, Some(s.maxAttempts - attempts)), NoCallback)
    ensures !correct && s.maxAttempts <= 0 ==>
      r == Response(TryAgainView(s.pullRequestUrl, None), NoCallback)
  {
    if correct then
      Response(PassView(s.pullRequestUrl, attempts, s.maxAttempts), QuizPassed(attempts))
    else
      var left := AttemptsLeft(s.maxAttempts, attempts);
      if NoneLeft(left) then Response(FailView(s.pullRequestUrl), QuizFailed(attempts))
      else Response(TryAgainView(s.pullRequestUrl, left), NoCallback)
  }

  // ---------------------------------------------------------------------------
  // Session state
  // ---------------------------------------------------------------------------

  /** The two session properties; None is undefined. */
  datatype SessionState = SessionState(attempts: Option<nat>, answers: Option<Answers>)

  const NewSession := SessionState(None, None)

  /** The attempts-initialising middleware, run before every route. */
  function Initialised(st: SessionState): (r: SessionState)
    ensures r.attempts.Some? && r.answers == st.answers
    ensures st.attempts.None? ==> r.attempts == Some(0)
    ensures st.attempts.Some? ==> r == st
  {
    if st.attempts.None? then SessionState(Some(0), st.answers) else st
  }

  /** The data the quiz page is rendered with (besides the quiz itself). */
  datatype QuizPage = QuizPage(answers: Option<Answers>, attempt: nat, maxAttempts: int)

  function Page(s: Settings, st: SessionState): QuizPage
    requires st.attempts.Some?
  {
    QuizPage(st.answers, st.attempts.value + 1, s.maxAttempts)
  }

  /** The `POST /submit` handler on an initialised session: store the answers,
      count the attempt, then decide. */
  function SubmitStep(s: Settings, st: SessionState, answers: Answers): (r: (SessionState, Response))
    requires st.attempts.Some?
    ensures r.0 == SessionState(Some(st.attempts.value + 1), Some(answers))
    ensures r.1 == Decide(s, CheckAnswers(answers, s.questions), st.attempts.value + 1)
  {
    var attempts := st.attempts.value + 1;
    (SessionState(Some(attempts), Some(answers)),
     Decide(s, CheckAnswers(answers, s.questions), attempts))
  }

  /** One POST request: the middleware, then the handler. */
  function Post(s: Settings, st: SessionState, answers: Answers): (SessionState, Response) {
    SubmitStep(s, Initialised(st), answers)
  }

  /** Attempts already counted in a session. */
  function Counted(st: SessionState): nat {
    if st.attempts.Some? then st.attempts.value else 0
  }

  /** A sequence of submissions from one browser: the final session state and
      the response to each. */
  function Replay(s: Settings, st: SessionState, submissions: seq<Answers>): (r: (SessionState, seq<Response>))
    ensures |r.1| == |submissions|
    decreases |submissions|
  {
    if submissions == [] then (st, [])
    else
      var (next, response) := Post(s, st, submissions[0]);
      var (last, responses) := Replay(s, next, submissions[1..]);
      (last, [response] + responses)
  }

  /** After N submissions, whatever they hold, attempts has grown by exactly N
      and the answers are the last ones submitted. */
  lemma {:induction false} ReplayState(s: Settings, st: SessionState, submissions: seq<Answers>)
    ensures Replay(s, st, submissions).0.attempts.Some? || submissions == []
    ensures submissions != [] ==>
      Replay(s, st, submissions).0
        == SessionState(Some(Counted(st) + |submissions|), Some(submissions[|submissions| - 1]))
    decreases |submissions|
  {
    if submissions != [] {
      var next := Post(s, st, submissions[0]).0;
      ReplayState(s, next, submissions[1..]);
    }
  }

  /** Submission i is graded on its own answers with attempts = counted + i + 1. */
  lemma {:induction false} ReplayResponse(s: Settings, st: SessionState, submissions: seq<Answers>, i: nat)
    requires i < |submissions|
    ensures Replay(s, st, submissions).1[i]
         == Decide(s, CheckAnswers(submissions[i], s.questions), Counted(st) + i + 1)
    decreases |submissions|
  {
    if i > 0 {
      var next := Post(s, st, submissions[0]).0;
      ReplayResponse(s, next, submissions[1..], i - 1);
    }
  }

  /** With maxAttempts <= 0 nothing ever fails: every wrong submission gets
      try-again with attemptsLeft undefined, and onQuizFailed is never called. */
  lemma UnlimitedNeverFails(s: Settings, st: SessionState, submissions: seq<Answers>, i: nat)
    requires s.maxAttempts <= 0 && i < |submissions|
    ensures !Replay(s, st, submissions).1[i].callback.QuizFailed?
    ensures !Replay(s, st, submissions).1[i].view.FailView?
  {
    ReplayResponse(s, st, submissions, i);
  }

  /** From a new session, with maxAttempts > 0 and only wrong submissions,
      submissions 1 .. maxAttempts-1 get try-again with maxAttempts - n
      attempts left, and every later one renders fail and calls onQuizFailed
      with its attempt number: there is no terminal state. */
  lemma WrongSubmissions(s: Settings, submissions: seq<Answers>, i: nat)
    requires s.maxAttempts > 0 && i < |submissions|
    requires !CheckAnswers(submissions[i], s.questions)
    ensures i + 1 < s.maxAttempts ==>
      Replay(s, NewSession, submissions).1[i]
        == Response(TryAgainView(s.pullRequestUrl, Some(s.maxAttempts - (i + 1))), NoCallback)
    ensures i + 1 >= s.maxAttempts ==>
      Replay(s, NewSession, submissions).1[i] == Response(FailView(s.pullRequestUrl), QuizFailed(i + 1))
  {
    ReplayResponse(s, NewSession, submissions, i);
  }

  /** A correct submission passes whatever came before, even after failures. */
  lemma CorrectSubmissionPasses(s: Settings, st: SessionState, submissions: seq<Answers>, i: nat)
    requires i < |submissions| && CheckAnswers(submissions[i], s.questions)
    ensures Replay(s, st, submissions).1[i]
         == Response(PassView(s.pullRequestUrl, Counted(st) + i + 1, s.maxAttempts),
                     QuizPassed(Counted(st) + i + 1))
  {
    ReplayResponse(s, st, submissions, i);
  }

  /** Viewing the quiz changes nothing but initialising attempts, and shows
      the number of the attempt about to be made. */
  lemma PageAfterSubmissions(s: Settings, submissions: seq<Answers>)
    requires submissions != []
    ensures Initialised(Replay(s, NewSession, submissions).0) == Replay(s, NewSession, submissions).0
    ensures Page(s, Initialised(Replay(s, NewSession, submissions).0)).attempt == |submissions| + 1
  {
    ReplayState(s, NewSession, submissions);
  }

  // ---------------------------------------------------------------------------
  // The session store
  // ---------------------------------------------------------------------------

  /** `req.session` of one browser; its two properties change in place. */
  class Session {
    var attempts: Option<nat>
    var answers: Option<Answers>

    function State(): SessionState
      reads this
    {
      SessionState(attempts, answers)
    }

    constructor ()
      ensures State() == NewSession
    {
      attempts := None;
      answers := None;
    }

    /** The middleware: set attempts to 0 when undefined, keep it otherwise. */
    method InitAttempts()
      modifies this
      ensures State() == Initialised(old(State()))
    {
      if attempts.None? {
        attempts := Some(0);
      }
    }

    /** `GET /`: the page shows attempt = attempts + 1; nothing changes. */
    method ShowQuiz(s: Settings) returns (page: QuizPage)
      requires attempts.Some?
      ensures page == Page(s, State())
      ensures page.attempt == attempts.value + 1 && page.answers == answers
    {
      page := QuizPage(answers, attempts.value + 1, s.maxAttempts);
    }

    /** `POST /submit`: store the answers, increment attempts, then grade. */
    method Submit(s: Settings, submitted: Answers) returns (response: Response)
      requires attempts.Some?
      modifies this
      ensures (State(), response) == SubmitStep(s, old(State()), submitted)
    {
      answers := Some(submitted);
      attempts := Some(attempts.value + 1);
      if CheckAnswers(submitted, s.questions) {
        response := Response(PassView(s.pullRequestUrl, attempts.value, s.maxAttempts),
                             QuizPassed(attempts.value));
      } else {
        var attemptsLeft := AttemptsLeft(s.maxAttempts, attempts.value);
        if NoneLeft(attemptsLeft) {
          response := Response(FailView(s.pullRequestUrl), QuizFailed(attempts.value));
        } else {
          response := Response(TryAgainView(s.pullRequestUrl, attemptsLeft), NoCallback);
        }
      }
    }
  }

  /** The session cookie's identifier. */
  type Token = string

  /** The app createApp returns: its settings and the session store. */
  class App {
    const settings: Settings
    var sessions: map<Token, Session>

    /** Each browser has a session object of its own. */
    ghost predicate Valid()
      reads this
    {
      forall t, u :: t in sessions && u in sessions && t != u ==> sessions[t] != sessions[u]
    }

    /** The state a request with this token finds. */
    function StateOf(token: Token): SessionState
      reads this, sessions.Values
    {
      if token in sessions then sessions[token].State() else NewSession
    }

    /** `createApp({quiz, pullRequestUrl, maxAttempts})`. */
    constructor (quiz: Quiz, pullRequestUrl: string, maxAttempts: Option<int>)
      ensures settings == Settings(quiz.questions, pullRequestUrl, MaxAttemptsOption(maxAttempts))
      ensures sessions == map[] && Valid()
    {
      settings := Settings(quiz.questions, pullRequestUrl, MaxAttemptsOption(maxAttempts));
      sessions := map[];
    }

    /** The session for a token, created empty for a browser seen for the first time. */
    method SessionFor(token: Token) returns (session: Session)
      requires Valid()
      modifies this
      ensures Valid() && token in sessions && session == sessions[token]
      ensures session.State() == old(StateOf(token))
      ensures token in old(sessions) ==> sessions == old(sessions)
      ensures token !in old(sessions) ==> fresh(session) && sessions == old(sessions)[token := session]
    {
      if token in sessions {
        session := sessions[token];
      } else {
        session := new Session();
        sessions := sessions[token := session];
      }
    }

    /** `GET /` from the browser holding `token`. */
    method Get(token: Token) returns (page: QuizPage)
      requires Valid()
      modifies this, sessions.Values
      ensures Valid() && sessions.Keys == old(sessions.Keys) + {token}
      ensures StateOf(token) == Initialised(old(StateOf(token)))
      ensures page == Page(settings, StateOf(token))
      ensures forall u :: u in old(sessions) && u != token ==>
        sessions[u] == old(sessions[u]) && sessions[u].State() == old(sessions[u].State())
    {
      var session := SessionFor(token);
      session.InitAttempts();
      page := session.ShowQuiz(settings);
    }

    /** `POST /submit` from the browser holding `token`. */
    method Submit(token: Token, submitted: Answers) returns (response: Response)
      requires Valid()
      modifies this, sessions.Values
      ensures Valid() && sessions.Keys == old(sessions.Keys) + {token}
      ensures (StateOf(token), response) == Post(settings, old(StateOf(token)), submitted)
      ensures forall u :: u in old(sessions) && u != token ==>
        sessions[u] == old(sessions[u]) && sessions[u].State() == old(sessions[u].State())
    {
      var session := SessionFor(token);
      session.InitAttempts();
      response := session.Submit(settings, submitted);
    }
  }
}
