# pr-quiz core, modelled in Dafny

pr-quiz is a GitHub Action. Before a pull request can be merged, it quizzes the author on that pull request. This project models the sequential logic under that action and proves properties of it:

- **Retry** (`retry.dfy`): `withRetry`. It is an exponential-backoff loop that calls an operation until the operation succeeds, or until its retries are spent or `shouldRetry` refuses.
  - The operation is a script of outcomes: `op(i)` is how call number `i` settles.
  - Sleeping is not performed. The delays that would be awaited are returned, in order, with the result and the number of calls.
  - The method `WithRetry` keeps the source's loop and is proved equal to the recursive description `RunFrom`.
- **PullRequests** (`pull_request.dfy`): the pull-request snapshot. This covers:
  - the constructor;
  - the lines-changed metric, with the size gate that the action applies to it;
  - `escapeXML`, as the source's five chained global replacements;
  - `toXML`, as the source's template text with every separator spelled out.
- **PullRequestReader** (`xml_reader.dfy`): a reader for the text `toXML` writes. It is the partner of the serialiser. Reading `toXML(pr)` back gives the number, the title, the author, the description, every comment and every file, in order. The escaped fields come back exactly as they went in.
- **QuizMaker** (`quiz_maker.dfy`): the zod schema, both as a predicate and as a typed parse. It also covers:
  - the chat-completion request built from a pull request;
  - the classification of one completion: no content, an unparsable or off-schema quiz, or a quiz with its usage;
  - `generateQuizForPullRequest`, which runs through `WithRetry`.
- **WebApp** (`create_app.dfy`): the grading server without its HTTP layer. This covers:
  - `checkAnswers`;
  - the per-browser session, a class whose `attempts` and `answers` fields the middleware and the `/submit` handler update in place;
  - the data behind `GET /`;
  - the pass / try-again / fail decision, with the callback it fires;
  - the app's store of sessions, keyed by session token.
- **Common** (`common.dfy`): an optional value (undefined against present) and the decimal rendering of a non-negative integer.

Some behaviour depends on things the model cannot see: `JSON.parse`, the text of zod's errors, the AI client and `shouldRetry`. Each of these is a function passed in as a parameter.

GitHub reports each file's `changes` as its additions plus deletions. The code sums `changes`, and the model follows the code. `LinesChangedIsAdditionsPlusDeletions` shows that the two agree whenever every file reports `changes == additions + deletions`.

## Model

| member | source | states |
|---|---|---|
| Retry.ResolveOptions | src/utils/retry.js:11 | An option that is left out takes its default: 3 retries, a 1000 ms base delay, and a `shouldRetry` that always agrees. Options that are given are used as given. |
| Retry.FailureMessage | src/utils/retry.js:20-22 | The error thrown on giving up starts with "Operation failed after ", then gives the retry count in decimal and " retries: ", and ends with the original error's message. |
| Retry.RunFrom | src/utils/retry.js:15-28 | Once the counter holds k, the run makes between 1 and maxRetries − k + 1 calls. It sleeps one delay fewer than it calls, and the j-th delay is baseDelay · 2^(k+j). |
| Retry.WithRetry | src/utils/retry.js:10-30 | The `while (true)` loop returns exactly the run that RunWithRetry describes. Its invariants keep 0 ≤ retryCount ≤ maxRetries, and the delays slept and the calls made each equal retryCount before every call. |
| Retry.RetryablePrefix | src/utils/retry.js:18-27 | After retryable failures from k to i − 1, the run continues as it would from counter i. It is preceded by exactly those i − k delays and calls, so the counter grows by one per retry. |
| Retry.FirstCallSucceeds | src/utils/retry.js:16-17 | A first call that succeeds returns its value unchanged, after one call and with no delay. |
| Retry.SuccessAt | src/utils/retry.js:15-28 | If the first success is at call i ≤ maxRetries, the run returns its value after exactly i + 1 calls and the delays baseDelay · 2^0 … baseDelay · 2^(i−1). |
| Retry.StopsWhenNotRetryable | src/utils/retry.js:19-22 | An error that `shouldRetry` rejects at call i ends the run at once, with no further delay. The message carries i and the original message. |
| Retry.SumDelays | src/utils/retry.js:25-27 | The first n delays add up to baseDelay · (2^n − 1). |
| Retry.AlwaysFailing | src/utils/retry.js:13-27 | An operation that always fails, under a `shouldRetry` that always agrees, is called maxRetries + 1 times. The run sleeps baseDelay · (2^maxRetries − 1) in total and throws "Operation failed after maxRetries retries: <last message>". |
| Retry.DefaultRetries | src/utils/retry.js:10-11 | `withRetry(fn)` with no options makes 1 to 4 calls, and the delays it sleeps are a prefix of 1000, 2000, 4000 ms. |
| PullRequests.NewPullRequest | src/pull-request/PullRequest.js:2-10 | The snapshot keeps the record's number, title, body and URL, takes the author from `user.login`, and keeps the files and comments exactly as given. |
| PullRequests.LinesChanged | src/pull-request/PullRequest.js:12-14 | The metric is 0 for no files and is at least the `changes` of every file. |
| PullRequests.GetLinesOfCodeChanged | src/pull-request/PullRequest.js:12-14 | No contract of its own: it is `LinesChanged` of the snapshot's files. That function's contract and LinesChangedAppend, LinesChangedConcat and LinesChangedIsAdditionsPlusDeletions state its properties. |
| PullRequests.TooSmallForQuiz | src/run.js:69 | No contract of its own: the gate skips a pull request whose lines changed fall below the threshold. OneLargeFilePassesGate states that one file at or above the threshold is enough to pass it. |
| PullRequests.LinesChangedAppend | src/pull-request/PullRequest.js:13 | Adding a file adds its `changes`. |
| PullRequests.LinesChangedConcat | src/pull-request/PullRequest.js:13 | The metric of two file lists joined together is the sum of their metrics. |
| PullRequests.LinesChangedIsAdditionsPlusDeletions | src/pull-request/PullRequest.js:13 | When every file reports changes = additions + deletions, the metric is total additions plus total deletions. |
| PullRequests.OneLargeFilePassesGate | src/run.js:69 | A pull request with one file at or above the threshold is never skipped as too small. |
| PullRequests.ReplaceAll | src/pull-request/PullRequest.js:57-61 | A global replacement leaves no occurrence of the character when the replacement text does not contain it. Text without the character is unchanged. |
| PullRequests.EscapeXML | src/pull-request/PullRequest.js:55-62 | No contract of its own: the five chained global replacements in source order (`&`, `<`, `>`, `"`, `'`). EscapeXMLPerCharacter, EscapeXMLLength, EscapeXMLIdentity, EscapeXMLWellEscaped, UnescapeEscape and EscapeXMLInjective state its properties. |
| PullRequests.EscapeXMLPerCharacter | src/pull-request/PullRequest.js:55-62 | The five chained replacements equal replacing each reserved character by its entity in a single pass. No produced entity is escaped again. |
| PullRequests.AmpersandLastEscapesTwice | src/pull-request/PullRequest.js:57 | Had `&` been replaced after `<`, the text "<" would come out as "&amp;lt;". This is why the `&` pass comes first. |
| PullRequests.EscapeXMLLength | src/pull-request/PullRequest.js:57-61 | The output length is the input length plus 4·#&, 3·#<, 3·#>, 5·#" and 5·#'. |
| PullRequests.EscapeXMLIdentity | src/pull-request/PullRequest.js:55-62 | A string with none of the five reserved characters is returned unchanged. |
| PullRequests.EscapeXMLWellEscaped | src/pull-request/PullRequest.js:55-62 | The output contains no `<`, `>`, `"` or `'`. Every `&` in it starts one of the five predefined entities. |
| PullRequests.UnescapeEscape | src/pull-request/PullRequest.js:57-61 | Undoing the five entities, with `&amp;` undone last, gives back the original string. |
| PullRequests.EscapeXMLInjective | src/pull-request/PullRequest.js:55-62 | Two strings that escape to the same text are equal. |
| PullRequests.OrEmpty | src/pull-request/PullRequest.js:22 | A missing value becomes the empty string. A present value is kept. |
| PullRequests.NullDescriptionIsEmpty | src/pull-request/PullRequest.js:22 | A null description serialises exactly like an empty one. |
| PullRequests.MissingPatchIsEmpty | src/pull-request/PullRequest.js:46 | A file without a patch serialises exactly like one with an empty patch. |
| PullRequests.CommentXML | src/pull-request/PullRequest.js:27-33 | No contract of its own: the comment template with author and timestamp raw and the body escaped. ReadCommentOf states that it reads back. |
| PullRequests.FileXML | src/pull-request/PullRequest.js:41-48 | No contract of its own: the file template with name, status and counts raw and the patch escaped. ReadFileOf states that it reads back. |
| PullRequests.ToXML | src/pull-request/PullRequest.js:16-53 | No contract of its own: the whole template, with every separator spelled out. ReadToXML states that it reads back as the pull request's view; NullDescriptionIsEmpty and MissingPatchIsEmpty state how missing values serialise. |
| PullRequestReader.ReadCommentOf | src/pull-request/PullRequest.js:27-33 | One comment element reads back as its author, timestamp and body. The body is escaped once and recovered exactly. |
| PullRequestReader.ReadFileOf | src/pull-request/PullRequest.js:41-48 | One file element reads back as its name, its status, its `+additions -deletions` counts and its patch. The patch is escaped once and recovered exactly. |
| PullRequestReader.ReadCommentsOf | src/pull-request/PullRequest.js:25-35 | The joined comment list reads back as one element per comment, in input order. |
| PullRequestReader.ReadFilesOf | src/pull-request/PullRequest.js:39-50 | The joined file list reads back as one element per file, in input order. |
| PullRequestReader.ReadToXML | src/pull-request/PullRequest.js:16-53 | The whole serialisation reads back as the pull request. The number, author, comment authors, timestamps, file names, statuses and counts are inserted raw. The title, description, comment bodies and patches are escaped exactly once. A missing description or patch reads back as empty. |
| QuizMaker.IsChoices | src/quiz/QuizMaker.js:4-9 | No contract of its own: the `Choices` schema as a predicate. ParseChoices states that it parses exactly when this holds. |
| QuizMaker.IsQuestion | src/quiz/QuizMaker.js:11-15 | No contract of its own: the `MultipleChoiceQuestion` schema as a predicate. ParseQuestion states that it parses exactly when this holds. |
| QuizMaker.IsQuiz | src/quiz/QuizMaker.js:17-19 | No contract of its own: the `Quiz` schema as a predicate. ParseQuiz states that it parses exactly when this holds, and ParseQuizToJson that every typed quiz written as JSON satisfies it. |
| QuizMaker.ParseChoices | src/quiz/QuizMaker.js:4-9 | A value parses as choices exactly when it is an object with string properties a, b, c and d. |
| QuizMaker.ParseQuestion | src/quiz/QuizMaker.js:11-15 | A value parses as a question exactly when it has a string `question`, valid `choices` and a string `answer`. The typed answer is that string. |
| QuizMaker.ParseQuestions | src/quiz/QuizMaker.js:18 | An array parses exactly when every element is a question. The result keeps the length, and each element is the parse of the element at the same index. |
| QuizMaker.ParseQuiz | src/quiz/QuizMaker.js:17-19 | A value validates exactly when it is an object whose `questions` is an array of questions. The parsed quiz has as many questions as the array. |
| QuizMaker.ParseQuizToJson | src/quiz/QuizMaker.js:4-19 | Every typed quiz, written as JSON, passes the schema and parses back to itself. |
| QuizMaker.SchemaIsLoose | src/quiz/QuizMaker.js:11-19 | An empty `questions` array validates, and so does a question whose answer is "e". |
| QuizMaker.MissingChoicesRejected | src/quiz/QuizMaker.js:45-51 | A question whose choices lack c and d fails the schema. The attempt throws "Failed to parse quiz JSON: " plus zod's message and yields no quiz. |
| QuizMaker.ModelName | src/quiz/QuizMaker.js:33 | The model name is never empty. An undefined or empty setting gives 'openai/gpt-4.1'; any other setting is used as is. |
| QuizMaker.Prompt | src/quiz/QuizMaker.js:31 | No contract of its own: the serialisation followed by the instruction. PromptCarriesPullRequest states that the prompt reads back as the pull request. |
| QuizMaker.BuildRequest | src/quiz/QuizMaker.js:31-40 | The request has exactly two messages: the system prompt, then the user prompt (toXML followed by the fixed instruction). Temperature is 0.7 and max_tokens is 1024. |
| QuizMaker.PromptCarriesPullRequest | src/quiz/QuizMaker.js:31 | The user prompt begins with a text that reads back as the pull request and ends with the fixed instruction. |
| QuizMaker.Content | src/quiz/QuizMaker.js:42 | No contract of its own: `completion.choices?.[0]?.message?.content` as optional chaining. NoContentFails and AttemptSucceeds state what a missing or falsy content does. |
| QuizMaker.Truthy | src/quiz/QuizMaker.js:43 | No contract of its own: JavaScript truthiness of a JSON value (null, false, 0 and "" are falsy). Usage, NoContentFails and AttemptSucceeds are stated with it. |
| QuizMaker.Usage | src/quiz/QuizMaker.js:54 | The usage reported is always truthy: the completion's own usage when it is truthy, otherwise `{}`. |
| QuizMaker.NoContentFails | src/quiz/QuizMaker.js:42-58 | Missing or falsy message content throws "Failed to generate questions". |
| QuizMaker.InvalidContentFails | src/quiz/QuizMaker.js:45-51 | Content that does not parse, or that parses to a value outside the schema, throws an error starting "Failed to parse quiz JSON: ". |
| QuizMaker.AttemptSucceeds | src/quiz/QuizMaker.js:41-55 | An attempt succeeds exactly when the client replies, the content is truthy, and it parses to a value in the schema. It then returns that parsed value itself, with the usage. |
| QuizMaker.Attempt | src/quiz/QuizMaker.js:41-58 | No contract of its own: one run of the retried closure on the client's reply. NoContentFails, InvalidContentFails, AttemptSucceeds and MissingChoicesRejected state its outcomes. |
| QuizMaker.GenerationAttempts | src/quiz/QuizMaker.js:30-41 | No contract of its own: call i of the closure sends the same request, built from the pull request, and classifies the reply. GenerateQuizForPullRequest states the retried run over it. |
| QuizMaker.GenerateQuizForPullRequest | src/quiz/QuizMaker.js:28-65 | Generation is withRetry over the attempt, with maxRetries 3 and baseDelay 1000. The client is called 1 to 4 times with the same request. The delays are a prefix of 1000, 2000, 4000. |
| QuizMaker.GenerationDelays | src/quiz/QuizMaker.js:60-63 | For any operation, the retry options used make at most 4 calls and sleep a prefix of 1000, 2000, 4000 ms. |
| QuizMaker.GenerationGivesUp | src/quiz/QuizMaker.js:29-63 | If every attempt fails, generation rejects after 4 calls and 7000 ms of waiting, with "Operation failed after 3 retries: " plus the last message. |
| WebApp.CheckAnswersFrom | src/web/createApp.js:14-16 | `every` over the questions from index i holds exactly when each of them is answered with its answer. |
| WebApp.CheckAnswers | src/web/createApp.js:13-17 | Answers pass exactly when, for every index i, the field String(i) holds exactly question i's answer. Zero questions always pass. |
| WebApp.OtherFieldsIgnored | src/web/createApp.js:15 | A field whose name is no question's index does not change the grade. |
| WebApp.IndicesBeyondIgnored | src/web/createApp.js:14-16 | Fields for indices at or past the number of questions do not change the grade. |
| WebApp.AnswerSheetPasses | src/web/createApp.js:13-17 | A form that picks one label per question passes exactly when it covers every question and each label is that question's answer. |
| WebApp.MaxAttemptsOption | src/web/createApp.js:24 | maxAttempts defaults to 3 when it is not given. |
| WebApp.AttemptsLeft | src/web/createApp.js:84-85 | With maxAttempts > 0, the attempts left are maxAttempts − attempts. Otherwise they are undefined, because `Math.Infinity` is not a property. |
| WebApp.Decide | src/web/createApp.js:76-91 | A correct submission renders pass and calls onQuizPassed(attempts). A wrong one with maxAttempts > 0 renders fail and calls onQuizFailed(attempts) once attempts ≥ maxAttempts. Otherwise it renders try-again with maxAttempts − attempts > 0 left, or with an undefined count when maxAttempts ≤ 0. |
| WebApp.Initialised | src/web/createApp.js:39-44 | The middleware sets undefined attempts to 0 and leaves an existing value, and the answers, unchanged. |
| WebApp.SubmitStep | src/web/createApp.js:66-93 | A submission stores the submitted answers and increments attempts by exactly 1, then decides on the new count. |
| WebApp.Page | src/web/createApp.js:56-64 | No contract of its own: the stored answers and attempts + 1. PageAfterSubmissions and Session.ShowQuiz state what the page shows. |
| WebApp.Post | src/web/createApp.js:66-93 | No contract of its own: the attempts middleware followed by the `/submit` handler. ReplayState, ReplayResponse, WrongSubmissions and CorrectSubmissionPasses state its effect. |
| WebApp.Replay | src/web/createApp.js:66-93 | One response per submission, for a session that handles the submissions in order. ReplayState and ReplayResponse state the final state and each response. |
| WebApp.ReplayState | src/web/createApp.js:66-73 | After N submissions, whatever their content, attempts has grown by exactly N, and the answers stored are the last ones. |
| WebApp.ReplayResponse | src/web/createApp.js:66-93 | Submission i is graded on its own answers, with attempts equal to the earlier count plus i + 1. |
| WebApp.UnlimitedNeverFails | src/web/createApp.js:84-91 | With maxAttempts ≤ 0, no submission ever renders fail or calls onQuizFailed. |
| WebApp.WrongSubmissions | src/web/createApp.js:84-91 | In a new session, wrong submission n < maxAttempts gets try-again with maxAttempts − n left. Every later one renders fail and calls onQuizFailed(n) again, so there is no terminal state. |
| WebApp.CorrectSubmissionPasses | src/web/createApp.js:76-82 | A correct submission passes and calls onQuizPassed with the post-increment count, whatever came before, including earlier failures. |
| WebApp.PageAfterSubmissions | src/web/createApp.js:56-64 | After N submissions, viewing the quiz changes nothing and shows attempt N + 1. |
| WebApp.Session.constructor | src/web/createApp.js:29-36 | A new session has neither attempts nor answers. |
| WebApp.Session.InitAttempts | src/web/createApp.js:39-44 | The session's new state is the middleware's result on its old state. |
| WebApp.Session.ShowQuiz | src/web/createApp.js:56-64 | The page shows the stored answers and attempt = attempts + 1, and nothing changes. |
| WebApp.Session.Submit | src/web/createApp.js:66-93 | The session's new state and the response are those of SubmitStep on its old state. |
| WebApp.App.constructor | src/web/createApp.js:19-25 | The app starts with no sessions, the quiz's questions, the pull request's URL, and maxAttempts (3 by default). |
| WebApp.App.SessionFor | src/web/createApp.js:29-36 | A known token gets its own session. A new token gets a new empty session. No two tokens share a session. |
| WebApp.App.Get | src/web/createApp.js:56-64 | `GET /` initialises the requesting browser's attempts and shows its page. Every other session is untouched. |
| WebApp.App.Submit | src/web/createApp.js:66-93 | `POST /submit` applies the middleware and the handler to the requesting browser's session only. The response is the one Post computes. |

## Left out

- Retry.WithRetry:
  - The operation is a total script of outcomes indexed by call number, not a finite list.
  - `shouldRetry` sees the error's message rather than the error object.
  - A thrown value with no `message` is not modelled.
- Retry.ResolveOptions: `maxRetries` is a non-negative integer. With a negative, fractional or non-numeric value, `retryCount === maxRetries` never holds, so an always-failing operation is retried without end. `baseDelay` is an integer rather than a floating-point number.
- Real sleeping (`setTimeout`) is not performed. The delays are returned instead.
- src/pull-request/fetchPullRequest.js (the GitHub REST calls and the glob filter on file names) is not part of this model. The reviews it passes to the three-argument constructor are dropped there.
- PullRequests.NewPullRequest: only the record fields the constructor reads are modelled. The number is a non-negative integer.
- PullRequestReader.ReadToXML: the fields `toXML` inserts raw must hold no `<`. Otherwise the text is ambiguous and cannot be read back. The fields are the author, comment authors, timestamps, file names and statuses.
- JavaScript strings are UTF-16 code-unit sequences. They are modelled as Dafny strings with no encoding concerns.
- QuizMaker.Attempt:
  - `JSON.parse` (including its conversion of non-string content to text) and the text of zod's error messages are parameters.
  - Numbers are reals: JSON has no NaN or infinities.
  - Property access models own properties of objects, index 0 of arrays and strings, and nothing from prototypes.
- QuizMaker.Attempt: a null completion throws V8's TypeError text. Another engine would word it differently.
- The AI client and the HTTP transport behind it are a parameter from request and call number to reply. src/quiz/DefaultSystemPrompt.js is a constant string and is not part of this model.
- WebApp.App.Submit:
  - express, express-session (cookie signing, the one-day expiry, id generation), body parsing, EJS rendering, `marked` and static files are left out.
  - A browser without a session is given one under the token it presents.
  - Submitted values are strings. Nested or repeated form fields, which would never equal a string answer, are not modelled.
- WebApp.MaxAttemptsOption: only a missing maxAttempts takes the default. A `null` or non-numeric maxAttempts is not modelled.
- WebApp.App: concurrent requests of one session, and what `onQuizPassed` / `onQuizFailed` do in src/run.js (timers, process exit), are left out. The callback that fires is part of each response.
- src/run.js (configuration, client construction, the pass/fail/deadline race), src/web/Server.js (listening, tunnelling, shutdown) and rollup.config.js are not part of this model. The one exception is the size gate at src/run.js:69.
