# Text-based coding challenge page, modelled in Dafny

The page loads a catalogue of programming challenges and lists them by level.
Each challenge has a description, starter code for each language, and test
cases (stdin and expected stdout). The page lets the user write code in an
embedded code widget. The Run button sends every test case of the current
challenge to the widget one at a time and scores each output by trimmed
equality. At the end it reports the pass rate. Submit marks the question
completed; once every question is completed the timer stops and the final
time is shown.

This project models the page's core, which sits underneath the DOM and
widget plumbing:

- `text.dfy` (module `Text`): the whitespace set of ECMAScript's
  `String.prototype.trim`, trimming, and the decimal rendering of
  `Number.prototype.toString` and `padStart(2, '0')` for naturals.
- `scoring.dfy` (module `Scoring`):
  - `isAnswerCorrect`;
  - `calculateMatchPercentage`, once as a specification function and once
    as the counting loop proved against it;
  - the pass-rate percentage, including NaN for an empty queue;
  - the three-way style choice of `updateMatchDisplay`.
- `clock.dfy` (module `Clock`): the elapsed seconds split into hours,
  minutes and seconds, the `HH:MM:SS ` text, and `getFinalTime`.
- `catalogue.dfy` (module `Catalogue`):
  - the challenge records;
  - the `languageFiles` lookup with its `main.py` default;
  - starter-code selection;
  - grouping by level, keeping each challenge's catalogue index;
  - the button styling rule of `updateQuestionList`.
- `runner.dfy` (module `Runner`):
  - the page's module-level state as the class `Session`, with one method
    per handler (start, question click, `showQuestion`, Run,
    `runNextTestCase`, the widget's run-complete and code-change events,
    Submit, Restart);
  - methods that drive a fresh session through a scenario and state what
    comes out.

The code widget is seen only through what the page posts to it: an
append-only log of `PopulateCode` and `TriggerRun` requests in
`Session.sent`. Each event the widget sends back is a method call that
carries the reported output or the changed files. The `setTimeout` delays
are dropped: a deferred post is recorded when it is scheduled, and the
deferred `runNextTestCase` runs at the end of the event handler. Elapsed
seconds are a parameter wherever the page reads the clock.

Behaviours of the page that the model states rather than corrects:

- The current test case is not cleared when the queue is exhausted. A second
  run-complete event for the last case is scored again, so the pass count
  can exceed the queue length (`Runner.StrayResponse` reaches 200%). The
  sequencer's bounds (`Session.Dispatched`, `Session.Reported`) hold under
  one answer per posted case.
- `isCorrect` is only ever assigned `false`, so the branch of the message
  handler that tests it (textbased.js:405-413) never runs. `Session.Valid`
  carries `!isCorrect` and the branch is not modelled.
- `testQueue` and `currentTestIndex` are undeclared, implicitly global
  variables. They are fields of `Session` like the declared ones.
- Restart does not reset the pass count, the queue, its index, the timer
  or the match label. `Session.Restart`'s `modifies` clause leaves them
  out.
- Selecting another question while a run is in progress leaves the Run
  button disabled for good (`Runner.AbandonedRun`).
- The run-complete handler sets `hasRunCode` (textbased.js:381) before it
  checks for a current test case (textbased.js:384). An answer still in
  flight when another question is shown therefore makes the new question
  submittable although its code never ran, against the comment at
  textbased.js:329. `Runner.AbandonedRun` ends with that Submit completing
  the new question.
- The comment at textbased.js:152 promises a fallback to the Python starter
  code, but textbased.js:154 falls back only to `""`
  (`Catalogue.NoPythonFallback`).
- The comment at textbased.js:218 names Levenshtein distance, but the
  function counts equal characters position by position
  (textbased.js:227-236). The model follows the code.
- With no test cases, the pass rate is 0/0, which is NaN (`Scoring.Score.NaN`).

## Model

| member | source | states |
|---|---|---|
| Text.TrimStartShape | textbased.js:222 | trimming the front drops only whitespace, keeps a suffix, and the suffix does not start with whitespace |
| Text.TrimEndShape | textbased.js:223 | trimming the back drops only whitespace, keeps a prefix, and the prefix does not end with whitespace |
| Text.Trim | textbased.js:222-223 | a trimmed string is no longer than the input and neither end is whitespace |
| Text.TrimIgnoresOuterWhitespace | textbased.js:241 | whitespace added on either side never changes what trim returns |
| Text.TrimIdempotent | textbased.js:373-386 | trimming the already trimmed output again changes nothing |
| Text.NatToString | textbased.js:215 | `toString` of a natural is a non-empty digit string without a leading zero that denotes the number, at most two digits below 100 |
| Text.TwoDigits | textbased.js:215 | `padStart(2, '0')` gives at least two digits that still denote the number, exactly two below 100 |
| Scoring.IsAnswerCorrect | textbased.js:240-242 | identical texts are correct, and correct texts have trimmed forms of equal length |
| Scoring.IsAnswerCorrectSymmetricAndPadded | textbased.js:240-242 | the answer check is symmetric and ignores whitespace added around either argument |
| Scoring.IsAnswerCorrectReflexive | textbased.js:373-386 | any text matches its own trimmed form and itself between blanks; checking the trimmed output gives the verdict for the raw output |
| Scoring.MatchCount | textbased.js:230-234 | the number of equal positions never exceeds the positions compared, and equals it exactly when the two prefixes are equal |
| Scoring.Percentage | textbased.js:303 | the floored percentage `p` of a part out of a positive whole: `p * whole <= part * 100 < (p + 1) * whole` |
| Scoring.PercentBelowFull | textbased.js:236 | a floored percentage of a part out of a positive whole is at most 100, and exactly 100 iff the part is the whole |
| Scoring.MatchesBelowLonger | textbased.js:225-236 | two different texts agree at fewer positions than the longer one has, so the division is by a positive length |
| Scoring.PositionalPercentage | textbased.js:227-236 | the similarity of two different texts is below 100 |
| Scoring.MatchPercentage | textbased.js:219-237 | 0 when either argument is empty; otherwise at most 100, and 100 exactly when the trimmed texts are equal |
| Scoring.CountMatches | textbased.js:227-234 | the counting loop returns the number of equal positions below the shorter length |
| Scoring.CalculateMatchPercentage | textbased.js:219-237 | the function as written (early returns, trimming, loop, floored division) returns `MatchPercentage` |
| Scoring.FinalScore | textbased.js:303 | NaN exactly when the queue is empty; otherwise between 0 and 100, and 100 iff every case passed |
| Scoring.DisplayTier | textbased.js:249-255 | full exactly when marked correct; partial exactly when not marked correct and the percentage is a positive number (NaN is not) |
| Clock.Decompose | textbased.js:211-214 | hours, minutes and seconds recombine to the elapsed seconds, with minutes and seconds below 60 |
| Clock.ClockText | textbased.js:215 | the clock text has at least nine characters and ends in `:MM:SS ` with colons and a trailing blank in place |
| Clock.ClockTextRoundTrip | textbased.js:215 | the clock text is `H…H:MM:SS ` with decimal fields that read back to the elapsed seconds |
| Clock.FinalTime | textbased.js:209-216 | `--` exactly when the timer never started, otherwise the clock text of the elapsed seconds |
| Catalogue.FileName | textbased.js:159 | a language in the table gets its file name; any other language gets `main.py` |
| Catalogue.FileNameDefaultOnlyForPython | textbased.js:28-40 | the default file name comes out only for Python or for a language missing from the table |
| Catalogue.StarterFor | textbased.js:153-157 | per-language starter code gives the language's text or `""`; a single starter text serves every language |
| Catalogue.NoPythonFallback | textbased.js:152-154 | a language missing from per-language starter code gets `""`, not the Python starter, even when that is non-empty |
| Catalogue.LevelGroupSound | textbased.js:85-89 | each entry of a level's group is the catalogue's challenge at the entry's index, has that level, and indices increase |
| Catalogue.LevelGroupComplete | textbased.js:85-89 | every challenge of a level appears in that level's group |
| Catalogue.GroupByLevel | textbased.js:79-89 | the grouping loop fills the easy, normal and hard lists with exactly the level groups |
| Catalogue.QuestionButtonsSound | textbased.js:91-117 | every button stands for the challenge at its index, and that challenge's level is easy, normal or hard |
| Catalogue.QuestionButtonsComplete | textbased.js:91-117 | every challenge of a shown level has a button |
| Catalogue.QuestionButtonsDistinct | textbased.js:91-117 | no two buttons stand for the same catalogue index |
| Catalogue.ButtonStatus | textbased.js:133-137 | active exactly for the current question, even when completed; completed exactly for other completed questions |
| Catalogue.Statuses | textbased.js:128-138 | one style per button, each given by the rule for that button's index |
| Catalogue.OneActiveButton | textbased.js:128-138 | at most one button is active, and one is exactly when the current question's level is shown |
| Runner.Report | textbased.js:303-304 | the label at the end of a run shows the pass rate and is styled full exactly when the rate is 100 |
| Runner.RunRequestsShape | textbased.js:273-300 | a run posts two requests per case, in queue order: case k is loaded with its stdin and the same code, then run |
| Runner.PassesBound | textbased.js:384-390 | the pass count never exceeds the number of cases, and equals it exactly when every output matches |
| Runner.PassesStep | textbased.js:386-390 | one more answered case adds one to the pass count exactly when its output matches |
| Runner.RunRequestsStep | textbased.js:282-299 | posting one more case appends its load and run requests |
| Runner.AllCompleted | textbased.js:336 | a set of question indices below n has size n exactly when it holds every question, so the size test means all are completed |
| Runner.Session.constructor | textbased.js:15-26 | the initial state of the page's variables, with the question buttons built from the catalogue |
| Runner.Session.InitQuestionList | textbased.js:79-121 | the buttons become the easy, normal and hard groups in that order |
| Runner.Session.Start | textbased.js:259-270 | sets the language, starts the timer and shows question 0; with an empty catalogue showing fails and nothing else changes |
| Runner.Session.ShowQuestion | textbased.js:142-185 | makes the question current, loads its starter code, posts it with the first case's stdin, resets the label, `hasRunCode`, `isCorrect` and the current case, and enables Submit |
| Runner.Session.Select | textbased.js:109-113 | a click on a completed question changes nothing; any other click shows that question |
| Runner.Session.Run | textbased.js:312-326 | queues the current question's cases, resets index and pass count, disables both buttons and posts the first case; an empty queue reports NaN at once |
| Runner.Session.RunNext | textbased.js:273-310 | posts the case at the index with the given code, or past the end reports the pass rate and enables both buttons |
| Runner.Session.OnRunComplete | textbased.js:372-402 | stores the trimmed output; with a current case, adds one to the index, adds one to the pass count iff the output matches, and moves on; without one, shows 0%; a posted case stays posted until answered |
| Runner.Session.OnCodeUpdate | textbased.js:366-369 | the first reported file becomes the current code; an empty file list changes nothing |
| Runner.Session.Submit | textbased.js:328-343 | a no-op before a run has reported; otherwise adds the current question to the completed set, and when its size reaches the catalogue size stops the timer and shows the final time |
| Runner.Session.Restart | textbased.js:346-358 | clears the completed set and the run flags, makes question 0 current and rebuilds the buttons, leaving the pass count and queue as they were |
| Runner.ScoreRun | textbased.js:273-326 | a whole run answered once per case: the requests are every case in queue order with the starter code, the pass count counts matching outputs, and the rate is 100 exactly when all match |
| Runner.AnswerNext | textbased.js:384-397 | answering the case in flight advances the run by one case |
| Runner.AnswerAll | textbased.js:384-397 | answering every posted case in order leaves the run reported, with every case's requests posted |
| Runner.StrayResponse | textbased.js:301-309 | a second answer for the only case of a one-case queue is scored again: two passes out of one, 200% |
| Runner.SubmitFirstQuestion | textbased.js:328-343 | Submit before any run completes nothing; after a lone run-complete event (no Run) it completes the question, and the session is finished exactly when the catalogue has one question |
| Runner.AbandonedRun | textbased.js:372-384 | selecting another question mid-run enables Submit but leaves Run disabled; the pending answer shows 0% yet sets `hasRunCode`, so Submit then completes the new question, whose code never ran |

## Left out

- Loading the catalogue (`fetch('real.json')`, textbased.js:5-11) is network I/O. The catalogue is the constructor's argument.
- All rendering is left out: `innerHTML`, `classList`, the output area, the `Running...` label, the screens' visibility, `alert` and `console.log`. The model keeps the decisions the page makes, not the DOM it writes.
- The code widget is reduced to the log of posted requests. `iframe.src` (textbased.js:263-264) and the `setTimeout` delays are left out, so the 200 ms and 1 ms delays are treated as zero.
- Runner.Session.ShowQuestion: the starter-code post is recorded when it is scheduled. The page builds it 500 ms later from `currentCode` and `currentLanguage` as they are then. A code-change event in between would change what is posted, and the model does not capture that.
- `parent-code-capture` (textbased.js:377-379) is a DOM write and is left out.
- The clock (`new Date()`, `setInterval`, `clearInterval`) is not modelled. Elapsed whole seconds are a natural-number input, so a clock set backwards (negative elapsed time) is not covered. The running interval is the flag `timerRunning`.
- The per-second timer label (textbased.js:196) uses the same arithmetic as `Clock.FinalTime`. It is display only and has no member of its own.
- Scoring.Percentage: `Math.floor((a / b) * 100)` is floating point. The model takes the integer `(a * 100) / b`, which can be one more than the page shows for some ratios: 29 / 100 * 100 is 28.999999999999996 in floating point, so the page shows 28 where the model says 29.
- Scoring.MatchPercentage: inherits the integer idealisation of `Scoring.Percentage`.
- Scoring.FinalScore: inherits the integer idealisation of `Scoring.Percentage`. A positive pass count over an empty queue (Infinity) cannot occur, since `Session.Valid` rules it out.
- Scoring.MatchPercentage: lengths and positions count Unicode scalar values, while the page's `length` and `[i]` count UTF-16 code units. With a character outside the Basic Multilingual Plane they differ: for `"😀a"` against `"😁a"` the page compares three code units, two of which match (66), and the model compares two characters, one of which matches (50).
- Scoring.CountMatches: counts equal Unicode scalar values, not UTF-16 code units, as for `Scoring.MatchPercentage`.
- Scoring.CalculateMatchPercentage: counts Unicode scalar values, not UTF-16 code units, as for `Scoring.MatchPercentage`.
- Text.Trim: strings are sequences of Unicode scalar values, not UTF-16 code units. The whitespace set is ECMAScript's WhiteSpace and LineTerminator code points, listed explicitly.
- Catalogue.FileName: a language name that is a property of every JavaScript object (`constructor`, `toString`) would read a function from `languageFiles`. The model treats it as missing from the table.
- Catalogue.GroupByLevel: a level named like an inherited object property makes the page throw. The model skips it like any other level outside easy, normal and hard.
- Catalogue.StarterFor: a `null`, missing or non-string starter code is not modelled. Starter code is either one text per language or one text for all.
- `currentMatchPercentage` is written but never read, so it is left out.
- The branch on `isCorrect` (textbased.js:405-413) can never run and is left out.
- Runner.Session.Start: with an empty catalogue `showQuestion(0)` throws. The model stops there and reports it through `ok`.
- Runner.Session.Run: with an empty catalogue the handler throws before changing anything. The model makes that call a no-op.
- Runner.Session.constructor: both buttons start enabled, an assumption since the page's HTML is not part of this model.
- Runner.Session.OnRunComplete: events without an output, and messages that are neither code changes nor run completions, do nothing on the page and are not modelled.
