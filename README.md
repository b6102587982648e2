# Exam page session model

A Dafny model of the exam page of the Sigma mathematics olympiad site
(`prova/script.js`). The page loads a fixed multiple-choice exam into the
global `App` object. The student moves between questions, picks option letters
by clicking or with the digit keys, marks questions for review and clears
answers. A one-second countdown runs the whole time, and submitting computes
the number of correct, incorrect and blank answers.

The model has four modules:

- `Exam` (`exam.dfy`) has the records: a question, an exam definition, the
  results record and the built-in sample exam. It also has the scorer.
  `Classify` files one question as blank, correct or incorrect, exactly as
  `calculateResults` does. A key missing from the answers dictionary reads as
  `undefined` and so counts as incorrect. `Score` is the tally. Lemmas prove
  that the tallies partition the questions. They also cover an all-blank
  session and an all-correct one, and that answering one blank question
  correctly moves exactly one question from blank to correct.
- `Timer` (`timer.dfy`) describes what repeated firings of the interval do.
  `AfterTicks` is the countdown after `n` chances to fire, where a cleared
  interval never fires again. It also has the `mm:ss` split, including the
  script's sign-keeping `%`.
- `Keys` (`keys.dfy`) has the letter shown beside option `i` and the letter a
  key press selects.
- `Session` (`session.dfy`) is the class `App`, with the fields `questions`,
  `answers`, `marked`, `currentIndex`, `timeLeft` and `timerRunning`. The last
  one stands for "`timerId` names an interval that has not been cleared". Each
  method updates these fields in place, as the script's functions do.
  `Valid()` is the state once an exam is loaded: a question is on screen and
  every question has an answer entry and a mark entry. The module ends with
  scenarios that drive an `App` the way a student would: answering everything
  correctly, letting the time run out, and submitting as the script does.

The browser, the DOM and real time are outside the model. The interval's
firings become calls of `App.Tick`, and a key press becomes a key name passed
to `App.PressDigit`.

The script has no finished phase: after submission or expiry, answering,
marking and navigation keep working. It stores any letter as an answer and does
not validate the exam it loads. The model does the same: `SetAnswer` stores any
letter, and after `Submit` every answer, mark and navigation method still works.

## Model

| member | source | states |
|---|---|---|
| `Session.App.constructor` | prova/script.js:21-30 | The initial `App`: no questions, empty answer and mark dictionaries, index 0, no time, no interval. |
| `Session.App.Reset` | prova/script.js:66-69 | Loading installs the exam's questions. Every question id, and nothing else, gets answer `null` and mark `false`. `timeLeft` becomes the exam's `timeLimit`. |
| `Session.App.LoadExam` | prova/script.js:66-72 | After loading, the session is valid. The first question is current, every answer is `null` and every mark `false`. The countdown has just started from the time limit. |
| `Session.Clamp` | prova/script.js:102 | For a non-empty list the index lands in `[0, n-1]`. An in-range index is kept, below 0 gives 0, and at or past the end gives the last index. With no questions the result is -1. |
| `Session.App.ShowQuestion` | prova/script.js:101-103 | The current index becomes the clamped request, so it always lies within the question list. |
| `Session.App.Previous` | prova/script.js:189 | "Previous" moves one question back and stays on the first question at the start. |
| `Session.App.Next` | prova/script.js:190 | "Next" moves one question forward and stays on the last question at the end. |
| `Session.App.SetAnswer` | prova/script.js:132 | Only `answers[qid]` changes, and it becomes the given letter whatever that letter is. The marks, the questions and the current index are unchanged. |
| `Session.App.ClearAnswer` | prova/script.js:133 | Only the current question's answer changes, and it becomes `null`. The marks and the index are unchanged. |
| `Session.ClearAfterSet` | prova/script.js:132-133 | Clearing right after setting leaves the same dictionary as clearing alone. On a question that was blank, it restores the dictionary exactly. |
| `Session.App.ToggleMark` | prova/script.js:134 | Only the current question's mark flips. The answers and the index are unchanged. |
| `Session.FlipTwice` | prova/script.js:134 | Flipping a mark changes only that key's value and keeps every other key and value, and flipping it twice restores the marks exactly. A missing mark reads as `undefined` and comes back as `false`. |
| `Session.App.PressDigit` | prova/script.js:199-203 | Keys "1" to "5" set the current question's answer to the letter of that option. Any other key changes nothing. |
| `Keys.OptionLetter` | prova/script.js:94 | Option `i` is shown with the `i`-th capital letter, which lies between A and Z. |
| `Keys.DigitLetter` | prova/script.js:199-202 | Only a one-character key from "1" to "5" selects a letter. Key `k` selects the letter shown for option `k-1`, between A and E. |
| `Keys.DigitSelectsOption` | prova/script.js:199-202 | Each of the first five options is selected by exactly one key. |
| `Session.App.StartTimer` | prova/script.js:139-143 | Any running interval is cleared, `timeLeft` becomes `seconds`, and a fresh interval is running. |
| `Session.App.Tick` | prova/script.js:143-145 | One firing takes one second off. The interval is cleared exactly when the time is at or below zero. |
| `Timer.CountdownReachesZero` | prova/script.js:139-146 | A countdown started from `seconds >= 1` keeps running for its first `seconds - 1` firings. After exactly `seconds` firings it is at 0 and stopped, and it stays there. It is never negative. |
| `Timer.CountdownFromNonPositive` | prova/script.js:143-145 | A countdown started at 0 or below still fires once and ends one below its start, then stops. |
| `Timer.TimerDisplay` | prova/script.js:150-151 | For `timeLeft >= 0`: `minutes*60 + seconds == timeLeft` and `0 <= seconds < 60`. For a negative time the minutes are the floor quotient (`minutes*60 <= timeLeft < minutes*60 + 60`) and the seconds lie in `(-60, 0]`. |
| `Exam.CountStatus` | prova/script.js:160-165 | The number of questions filed under one status never exceeds the number of questions. |
| `Exam.Score` | prova/script.js:158-166 | The tallies add up: `correct + incorrect + blank == total == questions.length`, and `score == correct`. |
| `Exam.CountsPartition` | prova/script.js:159-165 | Every question is counted under exactly one of blank, correct and incorrect. |
| `Exam.CountAll` | prova/script.js:160-165 | A tally equals the number of questions if and only if every question has that status. |
| `Exam.UnansweredIsBlank` | prova/script.js:162 | When every answer is `null`, every question is blank and nothing is correct or incorrect. |
| `Exam.AllCorrectScore` | prova/script.js:163 | When every answer equals its question's correct letter, the score is the total and nothing is blank or incorrect. |
| `Exam.AnswerOneCorrectly` | prova/script.js:160-166 | With distinct ids, answering one blank question correctly raises `correct` by one, lowers `blank` by one and leaves `incorrect` unchanged. |
| `Session.App.CalculateResults` | prova/script.js:158-167 | One pass over the questions returns exactly `Score` of the questions and answers, so its counts add up to the number of questions. |
| `Session.App.Submit` | prova/script.js:169-182 | Corrected submission: it returns `Score` of the current answers and clears the interval. Everything else stays as it was. |
| `Session.App.SubmitAsWritten` | prova/script.js:169-182 | Submission as written throws a `TypeError` and changes nothing. In particular the countdown keeps running. |
| `Session.SampleIsLikeSample` | prova/script.js:55-65 | The built-in exam has 600 seconds and five questions, with ids 1 to 5 and correct letters B, B, A, A, A. |
| `Session.AnswerAllCorrectly` | prova/script.js:195-206 | On such an exam, keys 2, 2, 1, 1, 1 with "next" between them, then the corrected `Submit`, give `correct == score == total == 5`. |
| `Session.LetTimeRunOut` | prova/script.js:139-146 | On such an exam left untouched, the interval fires exactly 600 times and ends at 0. All five questions are blank. |
| `Session.SubmitKeepsCounting` | prova/script.js:180-182 | On such an exam, submitting as written throws. The next firing still takes the clock from 600 to 599. |

## Left out

- Rendering is not modelled: `renderTabs`, `renderQuestionCard` (apart from the option letter), `updateTabHighlight`, the results markup of `showResults`, `byId`, `qq` and the `el` element table. They build HTML and touch the DOM.
- `updateProgress` is not modelled. Its percentage uses floating-point division and `Math.round`.
- The `padStart` zero padding of the timer text and the help-modal toggle (`?` key) are not modelled. They are presentation only.
- The event wiring of `bindUI` is not modelled as such: the listeners, the focus guard for input fields, and the lower-casing of the "m", "c" and "s" keys. The handlers it installs are the methods `Previous`, `Next`, `ToggleMark`, `ClearAnswer`, `PressDigit` and the submission methods.
- Real scheduling by `setInterval` and `clearInterval` is not modelled. A firing is a call of `App.Tick`, which only a running interval receives, so `Tick` requires `timerRunning`.
- `finishExam` is not part of this model. The script never defines it, and the call comes after `clearInterval`. So expiry means "interval cleared" and nothing more.
- `downloadJSON`, the export button, `nowISO`, `STORAGE_PREFIX` and the commented-out `fetch` are not modelled. They are browser I/O.
- The fields `App.exam` and `App.running` are not modelled. `exam` is only read by the export, and `running` is never read or written after initialisation.
- The per-question `_options` copy made at load is not modelled. Nothing reorders it, so the model keeps the questions as loaded.
- `loadExamJSON` is `async` but awaits nothing. It is modelled as the synchronous `LoadExam`, which takes the exam as a parameter. The script always passes its built-in exam, `Exam.SampleExam`.
- `LoadExam` requires at least one question. With an empty list, `showQuestion` sets the index to -1 and then fails while rendering `questions[-1]`. `Clamp` models the -1.
- `Keys.OptionLetter` covers only the first 26 options. `String.fromCharCode` beyond `Z`, and its 16-bit wrap-around, are not modelled, because the exam's questions have five options.
- The scenarios `AnswerAllCorrectly`, `LetTimeRunOut` and `SubmitKeepsCounting` are stated for any exam like the built-in one (`LikeSample`), not only for the built-in one. `SampleIsLikeSample` shows the built-in exam is such an exam.
- Numbers are mathematical integers. The script's values (ids, seconds) are small whole numbers, where JavaScript arithmetic is exact.

## Findings

| source | as written | input that shows it | evidently intended | confidence | as-written member | corrected member |
|---|---|---|---|---|---|---|
| prova/script.js:180-182 | `showResults` assigns to `el.results.innerHTML`, but the `el` table (lines 35-48) has no `results` entry. Line 180 therefore throws a `TypeError` before line 182's `clearInterval`. The results never appear and the countdown keeps running after submission. | Load the built-in exam and press "s" or the submit button; the next second still decrements `timeLeft` (`Session.SubmitKeepsCounting`). | Submitting clears the interval and shows the computed results. | not executed | `Session.App.SubmitAsWritten` | `Session.App.Submit` |
