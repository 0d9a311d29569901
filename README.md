# My Study Buddy: a verified model of its logic

My Study Buddy is a Streamlit app that turns study notes into flashcards, quizzes and
summaries with the help of a language model. This project models the parts of `app.py`
that decide things, and proves properties of them:

- **`extract_json`**: recovering a JSON value from a model's free-text reply. Six
  strategies run in a fixed order on the stripped reply:
  1. the whole text;
  2. the first case-insensitive "```json" fence;
  3. the first plain "```" fence;
  4. the span from the first `{` to the last `}`, retried once with line breaks flattened;
  5. the span from the first `[` to the last `]`, wrapped as `{"items": …}`;
  6. a question/answer pattern fallback that zips the matches into numbered flashcards.

  Each strategy is tried only when those before it yield nothing. When every strategy fails, the error quotes at most 200 characters of the stripped
  reply. Python's `str.strip` and the whitespace class `\s` are modelled exactly
  (`text.dfy`). `json.loads` and the two fallback pattern searches are parameters
  (`extract.dfy`, `extract_properties.dfy`).
- **Content clean-up**: keeping printable characters and line breaks, then cutting to
  3000 (quiz) or 5000 (summary) characters (`sanitize.dfy`).
- **The quiz**:
  - recording the picked option;
  - the scoring loop, the percentage and the A–F grade;
  - the manual question builder (`quiz.dfy`);
  - the `quiz_step` state machine of the quiz page as a `QuizSession` class (`quiz_flow.dfy`).
- **Accounts and pages**:
  - the users table with insert-if-absent, and the checks of the sign-up and log-in forms (`users.dfy`);
  - the page router and the onboarding dots (`navigation.dfy`);
  - the session object that sign-up, log-in, onboarding and logout update (`session.dfy`).

Modules:

| module | file | what it holds |
|---|---|---|
| `Wrappers` | wrappers.dfy | `Option` and `Result` |
| `JsonValue` | json_value.dfy | the JSON value type |
| `Text` | text.dfy | `strip`, whitespace, substring search, slicing |
| `Extract` | extract.dfy | `extract_json` and its strategies |
| `ExtractProperties` | extract_properties.dfy | what each kind of reply yields |
| `Content` | sanitize.dfy | the clean-up of pasted content |
| `Quiz` | quiz.dfy | questions, scoring, percentage, grade, manual builder |
| `QuizFlow` | quiz_flow.dfy | the quiz page's session state and buttons |
| `Users` | users.dfy | users table, sign-up and log-in checks |
| `Navigation` | navigation.dfy | pages, router, dots indicator |
| `Session` | session.dfy | the signed-in state, onboarding and page buttons |

## Model

| member | source | states |
|---|---|---|
| `Text.LStripSuffix` | app.py:470 | `lstrip()` returns a suffix of its input, drops only whitespace (Python's whitespace set), and leaves no whitespace at the front |
| `Text.RStripPrefix` | app.py:470 | `rstrip()` returns a prefix of its input, drops only whitespace, and leaves no whitespace at the back |
| `Text.StripSlice` | app.py:470 | `strip()` returns the slice of its input between a run of leading and a run of trailing whitespace, and the result neither starts nor ends with whitespace |
| `Text.StripPadded` | app.py:518-519 | whitespace added on either side of a string never changes what `strip()` returns |
| `Text.StripIdempotent` | app.py:480 | stripping a stripped string changes nothing, so the extra `.strip()` on a fence group is a no-op |
| `Text.StripUnpadded` | app.py:518-519 | a string that neither starts nor ends with whitespace is its own `strip()` |
| `Text.Take` | app.py:524 | `s[:n]` is a prefix of `s` of length `n`, or all of `s` when `s` is shorter |
| `Text.IndexOf` | app.py:477 | a search returns the first index at or after its start where the pattern occurs, and reports no hit only when there is none |
| `Text.LastIndexOf` | app.py:491 | returns the last index holding the character, and no index after it holds it |
| `Extract.FenceBounds` | app.py:477-489 | a fence is found at the first opening marker exactly when some "```" follows it; the group ends at the first such "```" |
| `Extract.DelimitedBounds` | app.py:491-508 | a span exists exactly when some closing delimiter lies after an opening one; it runs from the leftmost opening to the last closing delimiter, not a balanced match |
| `Extract.Flatten` | app.py:497 | a single line feed becomes one space, a single carriage return vanishes, and any other character stays; the result holds no `\n` and no `\r`, is no longer than the span, and a span without either character is unchanged |
| `Extract.FlattenAppend` | app.py:497 | the two replacements work character by character, in order: flattening a concatenation flattens each part, so with `Flatten` every line feed becomes a space and every carriage return is deleted |
| `Extract.StripEach` | app.py:518-519 | each pattern match is stripped |
| `Extract.Flashcards` | app.py:514-520 | zipping gives as many cards as the shorter match list, card `i` numbered `i + 1` and holding question `i` and answer `i` |
| `Extract.QuestionAnswerFallback` | app.py:510-522 | the fallback yields a value exactly when both match lists are non-empty, and the value is a flashcard record of the zipped, stripped, numbered pairs |
| `Extract.ErrorMessage` | app.py:524 | the error message is the fixed lead, then exactly the first 200 characters of the stripped text (all of it when shorter), then "..." |
| `Text.Strip` | app.py:470 | `str.strip()` without arguments, as `RStrip(LStrip(s))`; its properties are `Text.StripSlice`, `Text.StripSplit`, `Text.StripIdempotent`, `Text.StripPadded` and `Text.StripUnpadded` |
| `Extract.WholeText` | app.py:470-475 | strategy 1: the decoder applied to the stripped reply, whatever JSON type it yields; `Extract.ExtractJson` states that its success decides the result |
| `Extract.FencedInterior` | app.py:477-489 | strategies 2 and 3: the decoder applied to the stripped group of the first fence opened by the given marker, nothing when there is no fence; stated by `ExtractProperties.LabelledFenceRead`, `ExtractProperties.PlainFenceRead`, `ExtractProperties.NoLabelledFence` and `ExtractProperties.NoBacktickNoFence` |
| `Extract.ObjectSpan` | app.py:491-501 | strategy 4: the decoder applied to the span from the first `{` to the last `}`, and only when that fails, once more to the span flattened; stated by `ExtractProperties.ObjectRecovered` and `Extract.DelimitedBounds` |
| `Extract.ArraySpan` | app.py:503-508 | strategy 5: the decoder applied to the span from the first `[` to the last `]`, its value wrapped as `{"items": value}`, nothing when the span does not decode (the retry of strategy 4 is not repeated); stated by `ExtractProperties.ArrayRead` and `ExtractProperties.ArrayWrapped` |
| `Extract.Strategy` | app.py:467-522 | the six strategies numbered 0 to 5 in the order the source tries them; `Extract.FirstSuccessWins`, `Extract.SkipFailed` and `Extract.NoneSucceeds` state the order |
| `Extract.ExtractJson` | app.py:467-475 | when the stripped reply parses as a whole, that value is returned whatever its JSON type; a failure always quotes the stripped reply |
| `Extract.TryFrom` | app.py:472-524 | the strategies are tried in order from a given one on, and a failure quotes the stripped text |
| `Extract.FirstSuccessWins` | app.py:467-524 | when every strategy before the k-th yields nothing and the k-th yields a value, that value is the result |
| `Extract.NoneSucceeds` | app.py:467-524 | the result is an error exactly when all six strategies yield nothing |
| `Extract.SkipFailed` | app.py:472-522 | strategies that yield nothing are passed over: the outcome is decided by the ones after them |
| `ExtractProperties.NoBacktickNoFence` | app.py:477-489 | a reply without backticks holds no fence, so neither fence strategy applies |
| `ExtractProperties.FenceAfterProse` | app.py:477-489 | when an opening marker sits at `p`, a closing "```" at `c`, and no backtick comes before `p` or between the opening marker and `c`, the search finds exactly that opening marker and that closing "```" |
| `ExtractProperties.GroupOfBounds` | app.py:477-480 | between the opening marker and the closing "```" of a found fence lie a run of whitespace, the group, and another run of whitespace, as the greedy `\s*` and the lazy `(.*?)` split it; the group neither begins nor ends with whitespace, and it is the stripped interior |
| `Text.StripSplit` | app.py:470 | every string is a run of whitespace, its `strip()`, and another run of whitespace, and `strip()` neither begins nor ends with whitespace |
| `ExtractProperties.LabelledFenceRead` | app.py:477-480 | the labelled-fence strategy parses the stripped body of a "```json" fence that follows prose without backticks |
| `ExtractProperties.LabelledFenceRecovered` | app.py:477-482 | when the whole stripped reply does not parse, a reply holding prose without backticks, a "```json" fence (any letter case, long s included) and a body without backticks yields the parse of the stripped body |
| `ExtractProperties.NoLabelledFence` | app.py:477-478 | with no "```json" marker anywhere, the labelled strategy yields nothing |
| `ExtractProperties.PlainFenceRead` | app.py:484-487 | the plain-fence strategy parses the stripped body of the first plain fence |
| `ExtractProperties.PlainFenceRecovered` | app.py:484-489 | when the whole stripped reply does not parse, a reply with no "```json" marker, holding prose without backticks and then a plain fence whose body holds no backtick, yields the parse of the stripped fence body |
| `ExtractProperties.DelimitedSpanIs` | app.py:491-493 | prose without the opening delimiter, a span, and a tail without the closing delimiter: the span found is exactly that span |
| `ExtractProperties.NoDelimitedSpan` | app.py:491-492 | without an opening delimiter there is no span |
| `ExtractProperties.ObjectRecovered` | app.py:491-501 | when the whole stripped reply does not parse, a reply without backticks holding prose without `{`, one object span and a tail without `}` yields the span's parse, or failing that the parse of the span with line breaks flattened |
| `ExtractProperties.ArrayWrapped` | app.py:503-508 | when the whole stripped reply does not parse, a reply without backticks or `{`, holding prose without `[`, one array span and a tail without `]`, yields `{"items": parse}`; a reply that parses whole, such as `[1, 2]`, is returned unwrapped by `Extract.ExtractJson` instead |
| `ExtractProperties.OnlyPatternsLeft` | app.py:477-508 | with no backtick, no `{` and no `[`, the fence, object and array strategies all yield nothing |
| `ExtractProperties.QuestionAnswerRecovered` | app.py:510-522 | a reply with no JSON in it and non-empty match lists becomes the flashcard record of the zipped, stripped matches |
| `ExtractProperties.NothingRecovered` | app.py:524 | a reply with no JSON in it and an empty match list raises the error that quotes the stripped reply |
| `ExtractProperties.TwoCards` | app.py:514-520 | two question matches and two answer matches become two cards numbered 1 and 2 holding the matches stripped |
| `ExtractProperties.ArrayRead` | app.py:491-508 | in a text that does not parse whole and holds no backtick and no `{`, the array strategy is the first to yield a value, and it wraps the parse of the span |
| `ExtractProperties.TwoPairsRecovered` | app.py:510-522 | the worked example "Q1: What is 2+2? A1: 4 Q2: Capital of France? A2: Paris": given the captures the two patterns return on it, two questions each followed by one space and two answers of which only the first is followed by one space, a reply without JSON yields two cards numbered 1 and 2 holding the texts without the spaces |
| `Content.KeepPrintable` | app.py:1169 | the filtered text is no longer than the input and holds only characters that are printable or a line feed, carriage return or tab |
| `Content.KeepPrintableOne` | app.py:1169 | one character is kept exactly when it is printable or a line feed, carriage return or tab, and dropped otherwise |
| `Content.KeepPrintableAppend` | app.py:1169 | the filter works in order and keeps repeats: filtering a concatenation filters each part, so with `KeepPrintableOne` the result is the input with exactly the other characters removed |
| `Content.KeepPrintableMembers` | app.py:1169 | exactly the kept characters of the input occur in the result |
| `Content.Sanitize` | app.py:1169 | the cleaned content is a prefix of the filtered text of at most the limit; it is all of it when that fits, and exactly the limit long otherwise |
| `Content.KeepPrintableClean` | app.py:1286 | text made only of kept characters passes the filter unchanged |
| `Content.SanitizeIdempotent` | app.py:1286-1287 | cleaning cleaned content again with the same limit changes nothing |
| `Content.QuizExcerptPrefixesSummary` | app.py:1286-1287 | the 3000-character quiz excerpt is the start of the 5000-character summary excerpt |
| `Quiz.RecordedAnswer` | app.py:1016-1018 | the recorded answer is the first character of the picked line, and nothing when nothing is picked; stated by `Quiz.RecordedLabel` |
| `Quiz.IsRight` | app.py:1027-1028 | a question counts when it has a correct option and the recorded answer is the label of the first one; stated by `Quiz.NoCorrectOptionScoresZero`, `Quiz.ManualAnswerScores` and `QuizFlow.RightPicksScoreAll` |
| `Quiz.RecordedLabel` | app.py:1016-1018 | recording the first character of a picked option line gives back its label exactly when the label is one character long |
| `Quiz.FirstCorrect` | app.py:1027 | the right option is the first one marked correct; there is none exactly when no option is marked |
| `Quiz.CorrectCount` | app.py:1025-1031 | the score never exceeds the number of questions |
| `Quiz.CountCorrect` | app.py:1024-1031 | the scoring loop computes the number of questions whose recorded answer is the label of their first correct option |
| `Quiz.AllRightIsFullScore` | app.py:1025-1031 | the score equals the number of questions exactly when every question counts |
| `Quiz.NoCorrectOptionScoresZero` | app.py:1027-1028 | questions without a correct option never count, whatever was answered |
| `Quiz.Percent` | app.py:1044 | the percentage is the floor of 100 times right over total, between 0 and 100, and 0 for no questions |
| `Quiz.Grade` | app.py:1048 | A from 90, B from 80, C from 70, D from 60, F below; stated by `Quiz.GradeMonotone` and `Quiz.PerfectQuizGetsA` |
| `Quiz.GradeMonotone` | app.py:1048 | a higher percentage never gets a worse letter grade |
| `Quiz.PerfectQuizGetsA` | app.py:1044-1048 | all answers right gives 100 per cent and an A |
| `Quiz.ManualQuestion` | app.py:1102-1112 | the question dict the builder appends; its shape is stated by `Quiz.ManualQuestionWellFormed` and its scoring by `Quiz.ManualAnswerScores` |
| `Quiz.ManualQuestionWellFormed` | app.py:1100-1112 | a built question is numbered after the saved ones, holds the given question, A and B texts and an empty explanation, has options A–D in order with exactly one correct (the selected one), and takes C and D as given or "N/A" when blank |
| `Quiz.ManualAnswerScores` | app.py:1100-1112 | on a built question, picking an option counts exactly when it is the selected correct one |
| `QuizFlow.RecordAll` | app.py:1014-1019 | the answers after recording each question's pick in question order; stated by `QuizFlow.RecordAllAt`, `QuizFlow.RecordAllElsewhere` and `QuizFlow.QuizSession.RecordAnswers` |
| `QuizFlow.RecordAllAt` | app.py:1014-1019 | with distinct ids, each question's recorded answer is what its own pick records |
| `QuizFlow.RecordAllElsewhere` | app.py:1014-1019 | recording answers leaves the answers of every other id as they were |
| `QuizFlow.RightPicksScoreAll` | app.py:1014-1031 | picking the line of each question's correct option scores every question |
| `QuizFlow.QuizSession.CurrentScreen` | app.py:990-1185 | which branch of the `quiz_step` dispatch the page shows: play with a quiz splits into no questions, answering and results; menu, manual, ai_upload and ai_settings each show their own screen; anything else falls back; the buttons' ensures state the screen they lead to |
| `QuizFlow.QuizSession.constructor` | app.py:977-988 | the quiz page starts on the menu with no quiz, no answers, nothing submitted and no saved questions |
| `QuizFlow.QuizSession.StartAiQuiz` | app.py:1066-1067 | the menu's AI button moves to the upload step and changes nothing else |
| `QuizFlow.QuizSession.CreateManually` | app.py:1072-1073 | the menu's manual button moves to the builder and changes nothing else |
| `QuizFlow.QuizSession.PlayCustom` | app.py:1079-1085 | playing the saved questions (also "Play Quiz" at 1122-1126) starts a quiz titled "My Quiz" over them with no answers and nothing submitted |
| `QuizFlow.QuizSession.BackToMenuStep` | app.py:1087-1088 | "← Back" from the builder (and from the upload step, 1133-1134) returns to the menu only |
| `QuizFlow.QuizSession.AddQuestion` | app.py:1100-1112 | a question is appended exactly when its text and options A and B are filled in; earlier questions are kept and the saved list stays numbered and well formed |
| `QuizFlow.QuizSession.ClearAll` | app.py:1128-1129 | the saved questions are emptied and nothing else changes |
| `QuizFlow.QuizSession.UploadContinue` | app.py:1154-1156 | the pasted content is kept and the settings step follows |
| `QuizFlow.QuizSession.SettingsBack` | app.py:1160-1161 | back from the settings to the upload step |
| `QuizFlow.QuizSession.GenerateQuiz` | app.py:1167-1179 | the content is cleaned and cut to 3000 characters before the call; the quiz is played from a clean slate exactly when the call and `extract_json` both succeed, and otherwise nothing changes |
| `QuizFlow.QuizSession.RecordAnswers` | app.py:1014-1019 | the answering loop leaves the answers as each question's pick records them, in question order |
| `QuizFlow.QuizSession.Submit` | app.py:1021-1022 | submitting shows the results and changes nothing else |
| `QuizFlow.QuizSession.Score` | app.py:1025-1048 | the results show the score, the percentage (0 to 100) and the grade of the recorded answers |
| `QuizFlow.QuizSession.Retry` | app.py:1051-1053 | retry clears the answers and the submitted flag but keeps the quiz |
| `QuizFlow.QuizSession.ExitQuiz` | app.py:1004-1008 | exit returns to the menu and clears the quiz, the answers and the submitted flag |
| `QuizFlow.QuizSession.ResultsBackToMenu` | app.py:1055-1058 | back to the menu from the results clears the quiz and the submitted flag but keeps the answers |
| `QuizFlow.QuizSession.EmptyQuizBackToMenu` | app.py:994-998 | with a quiz without questions, back to the menu changes only the step |
| `QuizFlow.QuizSession.Fallback` | app.py:1183-1185 | any other step, including "play" without a quiz, falls back to the menu |
| `Users.UserStore.constructor` | app.py:30-40 | a newly created users table holds no rows (an existing database file keeps its rows; the model starts from a new one) |
| `Users.UserStore.AddUser` | app.py:45-58 | adding succeeds exactly when the e-mail is not yet stored, and then stores the row; a taken e-mail leaves the table unchanged |
| `Users.UserStore.GetUser` | app.py:60-69 | returns the row stored under the e-mail, and nothing when there is none |
| `Users.SignupProblem` | app.py:796-803 | a blank field warns first, then differing passwords, then a password under 6 characters are errors; the form passes exactly when none applies |
| `Users.LoginProblem` | app.py:746-757 | log-in passes exactly when both fields are filled, the e-mail is stored and its stored hash is the hash of the password; a blank field warns |
| `Users.SignedUpCanLogIn` | app.py:796-809 | an account stored by a successful sign-up passes the log-in check with the same password |
| `Users.WrongPasswordRejected` | app.py:746-755 | an unknown e-mail or a wrong password gets "Invalid email or password" |
| `Navigation.Route` | app.py:1460-1475 | the page `main` shows for a `current_page` value, splash for any unknown one; stated by `Navigation.RouteByName` |
| `Navigation.RouteByName` | app.py:1460-1475 | every page is shown for its own `current_page` value and only for it; any unknown value shows the splash page |
| `Navigation.DotFlags` | app.py:426-428 | there is one dot per step of `range(total)`, none for a negative total, and only the dot at `current` is active |
| `Navigation.DotSpelled` | app.py:428-429 | a dot is `<div class="dot ` then "active" or nothing, then `"></div>` |
| `Navigation.DotsIndicator` | app.py:425-431 | the loop builds the container around the dots for `range(total)`, in order |
| `Navigation.InactiveIsNotActive` | app.py:428-429 | a row of dots ending in an inactive dot does not end in an active one |
| `Navigation.ParseRenderDots` | app.py:425-431 | the rendered dots read back as the flags they came from, so the markup determines which step is active |
| `Navigation.OneActiveDot` | app.py:425-431 | exactly one dot is active when `current` is one of the steps, and none otherwise |
| `Session.AppSession.constructor` | app.py:386-397 | a new session is signed out, nameless, on the splash page, at onboarding step 0 and not onboarded |
| `Session.AppSession.OnboardingDots` | app.py:665 | the onboarding screen shows three dots with exactly one active, the current step's |
| `Session.AppSession.GetStarted` | app.py:635-636 | "Get Started" on the splash page opens onboarding |
| `Session.AppSession.OnboardingContinue` | app.py:676-684 | "Continue" advances the step until the last screen, where it completes onboarding and opens the welcome page; the step stays within the three screens |
| `Session.AppSession.OnboardingSkip` | app.py:670-672 | "Skip" completes onboarding at any step and opens the welcome page |
| `Session.AppSession.FollowLink` | app.py:707-713 | the welcome page's sign-up and log-in buttons (and the links at 766-767 and 821-822) open the chosen page and change nothing else |
| `Session.AppSession.SignUp` | app.py:796-809 | the form checks come first in their order, then the insert; a new account signs in under "first last" and asks for a nickname, a taken e-mail gets "Email already registered", and any problem changes nothing |
| `Session.AppSession.LogIn` | app.py:746-757 | a stored e-mail with the right password signs in under the stored name and opens the app; otherwise nothing changes |
| `Session.AppSession.NameContinue` | app.py:843-846 | a given nickname replaces the name, an empty one keeps it, and the app opens |
| `Session.AppSession.Logout` | app.py:874-877 | logout signs out, clears the name and returns to the splash page; onboarding progress is kept |
| `Session.SignUpThenLogIn` | app.py:746-809 | a new user who signs up, logs out and logs in with the same password gets into the app under "first last" |

## Left out

- `json.loads` is a parameter (`None` where it raises). So are the two `re.findall` calls of the question/answer fallback (app.py:511-512): the model takes their capture lists as given and proves the zipping, numbering and stripping. The grammar of JSON and the regular-expression engine are not modelled.
- The JSON value type has no NaN or infinity: `json.loads` accepts `NaN`, `Infinity` and `1e400` and returns non-finite floats, which a real number cannot hold. Such values are not represented; the decoder is a parameter, so no strategy depends on them.
- `str.isprintable` is a parameter, because it depends on Unicode tables.
- Case-insensitive matching of "```json" folds only what Python's regular expressions fold for these letters (ASCII case, and long s for s). Other Unicode case folding plays no part.
- Users.UserStore.constructor: starts from a newly created, empty users table. `CREATE TABLE IF NOT EXISTS` keeps the rows of a users.db already on disk, and those earlier rows are not modelled, because the database file lies outside the model.
- `hash_password` (SHA-256) is a parameter. The database connection, the `id` and `created_at` columns and `get_all_users` are not modelled. The users table is a map keyed by e-mail.
- The model call is a parameter. It receives the number of questions and the cleaned content. The prompt templates and their formatting are not modelled.
- The conversion of the extracted JSON into quiz data is a parameter. The model treats stored quiz data as always present. A value the page cannot read (a JSON list, whose `.get` raises) is not modelled, and neither is an empty object, which would count as no quiz and send the page back to the menu.
- Quiz.Percent: computes floor(100 × right / total) on integers. The source computes `int(right / total * 100)` in floating point, which can be one lower when the division is inexact. For example, 29 of 100 shows 28.
- File upload and PDF text extraction (app.py:1140-1150, 1257-1273) are not modelled. The pasted content is the input.
- Which option a player picks is an input to the answering loop. The radio widget, reruns and all rendering are not modelled: CSS, the robot picture, columns, the per-question result marks and the messages beyond the form notices.
- The other pages of the main app are not part of this model: flashcards, matching, summary, study guide and evaluation. Only the summary's content clean-up is modelled.
- "Forgot Password?" only shows a message and changes no state, so it is not modelled.
