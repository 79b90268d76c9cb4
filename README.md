# Quiz front end: a Dafny model

This project models the sequential logic beneath a small React trivia quiz.
The quiz has four screens: a welcome form that takes a name, a timed
multiple-choice quiz, a results screen that submits the score, and a
leaderboard of all submitted scores fetched from a spreadsheet endpoint.

The model covers five components:

- **Quiz** (`quiz.dfy`, module `QuizComponent`). Class `Quiz` holds the seven
  state fields of the component. Its events are `Tick` (the one-second
  countdown), `Timeout` (the effect branch taken once the clock reads zero),
  `Click(i)` (an option button) and `Advance` (the deferred `handleNext`).
  The deferred advance runs the closure of the render in which the question
  was answered. It is therefore modelled as a field `pending` holding a
  `Snapshot` of that render's index, score, choices and seconds. The ghost
  field `answers` records how each question was answered. `Valid()` states
  `Consistent` of the fields, read as a `QuizState` value, which ties the
  real fields to it:
  - `score` is the number of correct answers;
  - `choices` is the map built from the answers;
  - `timeLeft` stays in 0..30;
  - `currentIndex` stays inside the question list;
  - an advance is pending only while the current question is answered.
- **Leaderboard** (`leaderboard.dfy`, module `LeaderboardComponent`). The
  filter, the comparator and a stable sort, proved to return exactly the
  listed rows, in ranking order, each tie group in fetch order. Also the
  fetch outcome (class `Leaderboard`), the view dispatch and the rank badges.
- **Results** (`results.dfy`, module `ResultsComponent`). The rounded
  percentage, the two threshold chains (feedback and icon), the posted
  record with its key-override order, and the submission status (class
  `Results`). The status line reads "recorded" whenever the submission has
  settled, even when it failed. `ShowResults` states this.
- **Welcome** (`welcome.dfy`, module `WelcomeComponent`). The blank-name guard.
  It uses ECMAScript's `String.prototype.trim` (`js_string.dfy`, module
  `JsString`), with its WhiteSpace and LineTerminator code points.
- **App** (`app.dfy`, module `AppShell`). The screen state and `UserStats`,
  changed by the four handlers, and the rendering of exactly one screen.

`types.dfy` (module `Types`) holds `Question`, `AppState`, `UserStats` and
`Option`.

A correct answer to the last question is evidently meant to score a point,
and an expired one to be recorded with the time-expired marker. The code
reports the score and choices captured before the final answer. The model follows the code (see "Findings"), and
`Quiz.AdvanceLive` gives the intended behaviour.

## Model

| member | source | states |
|---|---|---|
| `JsString.IsTrimmed` | components/Welcome.tsx:15 | the code points `trim` removes: TAB, VT, FF, space, no-break space, the Unicode space separators U+1680, U+2000 to U+200A, U+202F, U+205F, U+3000, the byte order mark U+FEFF, and the line terminators LF, CR, U+2028 and U+2029 |
| `JsString.Trim` | components/Welcome.tsx:15 | the trimmed name neither starts nor ends with whitespace, and it is empty exactly when every code point of the name is whitespace or a line terminator |
| `JsString.TrimStart` | components/Leaderboard.tsx:28 | the result is the suffix left after the longest run of leading whitespace |
| `JsString.TrimEnd` | components/Leaderboard.tsx:28 | the result is the prefix left before the longest run of trailing whitespace |
| `QuizComponent.CountCorrect` | components/Quiz.tsx:64-66 | the score never exceeds the number of questions answered |
| `QuizComponent.CountCorrectFullMarks` | components/Quiz.tsx:64-66 | the score equals the number of questions answered exactly when every answer picked the correct index |
| `QuizComponent.ChoicesOf` | components/Quiz.tsx:41-62 | the `choices` state: the answers recorded in order, each under its question's text, with the option's text or the time-expired marker; its key set and entries are stated by the three lemmas below |
| `QuizComponent.ChoicesOfKeys` | components/Quiz.tsx:59-62 | the choice map's keys are exactly the texts of the answered questions |
| `QuizComponent.ChoicesOfSize` | components/Quiz.tsx:43 | with distinct question texts, the choice map has exactly one entry per answered question |
| `QuizComponent.ChoicesOfLookup` | components/Quiz.tsx:61 | with distinct question texts, each answered question's entry is its chosen option's text or the time-expired marker |
| `QuizComponent.RecordAnswer` | components/Quiz.tsx:55-66 | recording one more answer keeps the earlier answers as a prefix, adds a point exactly for the correct option, and maps the question's text to the option's text or the time-expired marker |
| `QuizComponent.AnswerKeepsConsistent` | components/Quiz.tsx:52-68 | answering the open question keeps the component's invariant: score and choices stay those of the recorded answers, and the scheduled advance carries the state before the click |
| `QuizComponent.CountCorrectPrefix` | components/Quiz.tsx:29 | dropping the last answers lowers the score by at most one point per dropped answer |
| `QuizComponent.Quiz.constructor` | components/Quiz.tsx:11-17 | the quiz starts on question 0 with score 0, no choices, no selection, unanswered, 30 seconds and 0 seconds spent |
| `QuizComponent.Quiz.Tick` | components/Quiz.tsx:33-38 | on an unanswered question with time left, the clock drops by one and the seconds spent rise by one; otherwise nothing changes, so no tick follows an answer; the invariant keeps the clock in 0..30 |
| `QuizComponent.Quiz.Timeout` | components/Quiz.tsx:39-45 | at zero on an unanswered question, the question becomes answered with the time-expired marker and no score change, and an advance is scheduled with the state before the marker |
| `QuizComponent.Quiz.Click` | components/Quiz.tsx:52-69 | on an answered question nothing changes; otherwise the selection and answered flag are set, the question's key maps to the option text with all other keys unchanged, the score rises by one exactly on the correct index, and an advance is scheduled with the pre-click state |
| `QuizComponent.Quiz.Answer` | components/Quiz.tsx:55-68 | past the guard: selection and answered flag set, the question's key mapped to the option text, a point exactly for the correct index, an advance scheduled with the pre-click state, clock and index unchanged |
| `QuizComponent.Quiz.Advance` | components/Quiz.tsx:22-31 | before the last question: index plus one, selection cleared, unanswered, clock back to 30, with score, choices and seconds carried over; on the last question the index stays and the report holds the captured score and choices, which leave out the final answer |
| `QuizComponent.Quiz.AdvanceLive` | components/Quiz.tsx:22-31 | as `Advance`, except that the last question reports the live score and choices: every question is answered, the score is at most the question count, the time is at most 30 per question, and with distinct texts there is one choice per question |
| `QuizComponent.RunClockDown` | components/Quiz.tsx:34-38 | thirty ticks on a fresh question bring the clock to 0 with 30 seconds spent and the question still unanswered |
| `QuizComponent.CorrectFinalAnswerDropped` | components/Quiz.tsx:29 | one question, answered correctly after five ticks: as written, the report is score 0, no choices, 5 seconds |
| `QuizComponent.CorrectFinalAnswerReported` | components/Quiz.tsx:64-68 | the same run with the intended advance reports score 1, the chosen option's text, 5 seconds |
| `QuizComponent.ExpiredFinalAnswerDropped` | components/Quiz.tsx:45 | one question left to time out: as written, the report is score 0, no choices, 30 seconds |
| `QuizComponent.ExpiredFinalAnswerReported` | components/Quiz.tsx:39-44 | the same run with the intended advance reports score 0, the time-expired marker, 30 seconds |
| `LeaderboardComponent.CellValue` | components/Leaderboard.tsx:30-33 | a blank cell or a numeric zero gives the fallback (0 for score, 9999 for time); any other number, and any non-empty text, gives its value |
| `LeaderboardComponent.Compare` | components/Leaderboard.tsx:29-39 | the sort comparator; it is at most zero exactly when `a` has the higher score, or the same score and no greater time |
| `LeaderboardComponent.CompareMeansRank` | components/Leaderboard.tsx:29-39 | the comparator keeps `a` before `b` exactly when `a` has the higher score, or the same score and no greater time; it is antisymmetric |
| `LeaderboardComponent.RankedPairwise` | components/Leaderboard.tsx:35-38 | in a ranked list every earlier entry ranks before every later one, not just its neighbour |
| `LeaderboardComponent.Listed` | components/Leaderboard.tsx:28 | the filter callback holds exactly when the name is present and contains a code point that `trim` keeps |
| `LeaderboardComponent.FilterListed` | components/Leaderboard.tsx:28 | the filter keeps no more rows than it was given, and every row it keeps has a name that is present and non-blank after trimming |
| `LeaderboardComponent.FilterCounts` | components/Leaderboard.tsx:28 | each row is kept as often as it was fetched when its name is present and non-blank after trimming, and dropped otherwise |
| `LeaderboardComponent.NamedEntryListed` | components/Leaderboard.tsx:28 | a row whose name starts with a code point that is not whitespace passes the filter |
| `LeaderboardComponent.Insert` | components/Leaderboard.tsx:29 | one step of the stable sort: the entry goes before the first entry it ranks before, so the list grows by one; its contents, order and stability are stated by the three lemmas below |
| `LeaderboardComponent.InsertPermutes` | components/Leaderboard.tsx:29 | inserting one entry adds exactly that entry |
| `LeaderboardComponent.InsertRanked` | components/Leaderboard.tsx:35-38 | inserting into a ranked list keeps it ranked |
| `LeaderboardComponent.InsertStable` | components/Leaderboard.tsx:29 | insertion places an entry ahead of every entry with the same score and time |
| `LeaderboardComponent.SortEntries` | components/Leaderboard.tsx:29-39 | the `.sort` call as a stable insertion sort by the comparator, returning as many entries as it was given |
| `LeaderboardComponent.SortPermutes` | components/Leaderboard.tsx:29-39 | the sort adds and drops nothing: the result is a permutation of its input |
| `LeaderboardComponent.SortRanks` | components/Leaderboard.tsx:35-38 | after the sort, each entry's score is at least the next one's, and on equal scores its time is at most the next one's |
| `LeaderboardComponent.SortStable` | components/Leaderboard.tsx:29-39 | entries with equal score and time keep their fetch order |
| `LeaderboardComponent.Rank` | components/Leaderboard.tsx:27-40 | the list `fetchData` stores for a good response, the sorted listed rows, never longer than the rows fetched |
| `LeaderboardComponent.FilterKeepsGroupOrder` | components/Leaderboard.tsx:28 | taking the rows with given score and time after the filter is the same as filtering that group of fetched rows, so the filter keeps fetch order in each group |
| `LeaderboardComponent.RankKeepsFetchOrder` | components/Leaderboard.tsx:27-39 | in the stored list, the rows with given score and time are exactly that group's listed rows in fetch order |
| `LeaderboardComponent.RankCorrect` | components/Leaderboard.tsx:27-40 | the stored list holds exactly the listed rows with their multiplicities, ordered by score descending and then time ascending, each group of equal keys in the order the filter left it |
| `LeaderboardComponent.UntimedSortsLast` | components/Leaderboard.tsx:32-33 | an entry with a blank or zero time sorts after any entry with the same score whose time, given as a number or numeric text, is positive and below 9999 |
| `LeaderboardComponent.FilterKeepsAll` | components/Leaderboard.tsx:28 | when every row has a non-blank name the filter keeps every row, in order |
| `LeaderboardComponent.RankExample` | components/Leaderboard.tsx:27-39 | for any three plainly named rows, (10, 20 s), (10, 15 s), (5, 1 s) rank as (10, 15 s), (10, 20 s), (5, 1 s) |
| `LeaderboardComponent.GetRankIcon` | components/Leaderboard.tsx:64-69 | 👑, 🥈 and 🥉 exactly for rows 0, 1 and 2, and the one-based position for every other row |
| `LeaderboardComponent.GetBadgeColor` | components/Leaderboard.tsx:55-62 | every row outside the first three gets the default badge, and none of the first three does |
| `LeaderboardComponent.PodiumBadgesDistinct` | components/Leaderboard.tsx:57-59 | the first three rows get three different badges |
| `LeaderboardComponent.Leaderboard.constructor` | components/Leaderboard.tsx:15-17 | the component mounts with no rows, loading, and no error |
| `LeaderboardComponent.Leaderboard.FetchData` | components/Leaderboard.tsx:20-49 | an ok response with an array stores the ranking; a response that is not ok or has no array sets "فشل تحميل البيانات" and leaves the rows; a throw sets "تعذر الاتصال بقاعدة البيانات"; loading ends in every case |
| `LeaderboardComponent.Leaderboard.View` | components/Leaderboard.tsx:89-134 | spinner exactly while loading, then the error panel holding the stored message, then the empty notice, then one row per entry with that row's badge and icon |
| `LeaderboardComponent.MountAndFetch` | components/Leaderboard.tsx:19-53 | once the fetch settles the spinner is gone; on either failure the error shows and the list is empty; on success the empty notice shows exactly when no row is listed |
| `ResultsComponent.Percentage` | components/Results.tsx:14 | the percentage is the integer nearest to 100·score/total, halves rounded up, and lies in 0..100 when the score is at most the total |
| `ResultsComponent.Feedback` | components/Results.tsx:16-21 | `getFeedback`: the message of the band given by how many of the thresholds 50, 70 and 90 the percentage reaches |
| `ResultsComponent.ResultIcon` | components/Results.tsx:23-28 | `getRankIcon`: the icon of the band given by how many of the thresholds 50, 70 and 90 the percentage reaches |
| `ResultsComponent.FeedbackAndIconShareBand` | components/Results.tsx:16-28 | each threshold chain returns the entry for the number of thresholds (50, 70, 90) reached, so feedback and icon fall in the same band, and the band never drops as the percentage rises |
| `ResultsComponent.FeedbackExclusive` | components/Results.tsx:16-21 | exactly one of the four messages applies to a percentage |
| `ResultsComponent.Payload` | components/Results.tsx:33 | the record holds the name key, every choice key, the score key and the time key; score and time override any choice of the same key; a choice keyed like the name field overrides the name |
| `ResultsComponent.Results.constructor` | components/Results.tsx:12-13 | the screen mounts submitting, with status idle |
| `ResultsComponent.Results.SubmitResults` | components/Results.tsx:31-42 | posts the payload; afterwards submitting is off and the status is success exactly when the request did not throw |
| `ResultsComponent.Results.Status` | components/Results.tsx:74-86 | the spinner line shows exactly while submitting |
| `ResultsComponent.ShowResults` | components/Results.tsx:30-44 | after a submission the status is success or error as the request went, and the line shown is "recorded" in both cases |
| `WelcomeComponent.Welcome.constructor` | components/Welcome.tsx:11 | the name starts empty |
| `WelcomeComponent.Welcome.HandleSubmit` | components/Welcome.tsx:13-18 | at most one start call; there is one exactly when the name holds a non-whitespace code point, and it carries the name as typed |
| `WelcomeComponent.Welcome.Handle` | components/Welcome.tsx:40-70 | typing replaces the name and calls nothing; a submit behaves as the guard; the leaderboard button calls only the leaderboard callback and never start |
| `WelcomeComponent.SubmitWith` | components/Welcome.tsx:15-16 | a typed name starts the quiz, untrimmed, unless every code point is whitespace |
| `AppShell.InitialStats` | App.tsx:12-19 | the initial stats: empty name, score 0, the question count, start 0, no end time, time 0, no choices |
| `AppShell.Rendered` | App.tsx:69-72 | exactly one screen is rendered for each screen state, the quiz with the question list and the results with the current stats |
| `AppShell.App.constructor` | App.tsx:11-19 | the application starts on the welcome screen with the initial stats |
| `AppShell.App.HandleStart` | App.tsx:21-30 | sets name and start time, clears choices, zeroes the time, keeps score, end time and question count, and switches to the quiz |
| `AppShell.App.HandleFinish` | App.tsx:32-41 | overwrites score, choices and time, sets the end time, keeps name, start time and question count, and switches to the results |
| `AppShell.App.HandleRestart` | App.tsx:43-53 | restores exactly the initial stats and the welcome screen whatever the prior state, so a second restart changes nothing |
| `AppShell.App.ShowLeaderboard` | App.tsx:55-57 | only the screen changes, to the leaderboard |
| `AppShell.App.LeaderboardBack` | App.tsx:72 | leaving the leaderboard restarts, so the stats are cleared |
| `AppShell.Session` | App.tsx:21-57 | start, finish, leaderboard and back leave the results stats holding the session's values, and restarting once or twice gives the initial stats |

## Left out

- Rendering: JSX, CSS classes, animations, the inline style blocks, the SVG timer geometry and the progress-bar width are display only.
- Real time: the 1000 ms and 1200 ms delays, React's scheduling and batching, and effect cleanup are not modelled. The callbacks are discrete events in any order. Cleanup is reflected only in that no tick runs once a question is answered.
- Unmounting: the quiz unmounts after reporting on the last question. In the model it stays answered with no advance pending, and every further event changes nothing.
- Network: `fetch`, `response.json()` and the no-cors POST are inputs. The leaderboard takes a `FetchOutcome`, and the results take whether the request threw. The endpoint is not part of this model.
- Coercion: `Number()` on arbitrary strings, including NaN and the inconsistent ordering it gives, is not modelled. Cells are already-coerced integers. A name that is not a string cannot be represented; in the source, `trim` would throw on it and the connection error would show.
- `ResultsComponent.Percentage`: computes `Math.round(score / total * 100)` in exact arithmetic. The source rounds a double, which can land on the other side of a half at some inputs.
- `ResultsComponent.Payload`: a map, so the key order of the JSON text that `JSON.stringify` writes is not modelled.
- `LeaderboardComponent.RankCorrect`: proved for one stable sort (insertion); that every stable sort with this comparator gives the same list is not proved.
- Clocks: `Date.now()` is a parameter of `HandleStart` and `HandleFinish`. `window.location.reload` and `console.error` are not modelled.
- The question list and logo come from a constants file that is not part of this model. The question list is a parameter; the quiz requires it to be non-empty, as the component reads the first question on mount.
- The browser's `required` check on the name input is not modelled. The blank-name guard covers the empty name anyway.
- The results effect runs once per stats object. Re-submission when the stats change while the screen is open does not occur in the application and is not modelled.

## Findings

| source | as written | input that shows it | evidently intended | confidence | as-written member | corrected member |
|---|---|---|---|---|---|---|
| components/Quiz.tsx:68 | the click schedules the `handleNext` of the current render, so on the last question `onFinish` gets the score and choices from before the click | one question, correct option clicked after 5 seconds: reports score 0, no choices, 5 seconds | score 1 and the chosen option's text recorded | not executed | `QuizComponent.CorrectFinalAnswerDropped` | `QuizComponent.CorrectFinalAnswerReported` |
| components/Quiz.tsx:45 | the timeout schedules the `handleNext` of the render in which the clock read zero, so on the last question `onFinish` gets the choices without the time-expired marker | one question left to time out: reports score 0, no choices, 30 seconds | the time-expired marker recorded for the question | not executed | `QuizComponent.ExpiredFinalAnswerDropped` | `QuizComponent.ExpiredFinalAnswerReported` |
