# Multiplication quiz: a Dafny model of the quiz state and its three views

The application teaches the multiplication table in three modes:

- **Study**: browse a 10×10 table with one table's row and column highlighted.
- **Practice**: answer questions at a chosen level, with running statistics.
- **Test**: answer ten questions in a row and see a score.

All modes share one application state record. Its reducers are the only way to change it.

This project models that state and the view logic around it:

- `wrappers.dfy`: `Option`, which stands for JavaScript's `null` and for a `NaN` result of `parseInt`.
- `numerals.dfy` (module `Numerals`): three JavaScript conversions the quiz relies on.
  - The `^\d*$` input filter is `DigitsOnly`.
  - The template rendering `${n}` is `NatToString`/`IntToString`.
  - `parseInt` with no radix is `ParseInt`. It skips leading white space, takes an optional sign, switches to radix 16 on a `0x` prefix, then reads the longest digit run. No digits gives `NaN`.
- `slice.dfy` (module `MultiplicationSlice`): the state record as the datatype `State`, and the store as the class `Store`.
  - `Store` has one field per state field and one method per reducer.
  - The effect of `checkAnswer` is specified by the function `Checked`.
  - The explanation-building loop is the method `ExplainMistake`. It is proved to produce `MistakeExplanation`.
- `controls.dfy` (module `QuizControls`): two pieces that the test view and the practice view each contain a copy of.
  - The question generator. `Math.random()` is replaced by two indices `r1, r2` below the level's width.
  - The digits-only answer filter.
- `testmode.dfy`, `practicemode.dfy`, `studymode.dfy`: the handlers and display rules of the three views.
  - A handler that arms a timer for the next question instead returns a flag `scheduleNext`. A set flag stands for a later call of `QuizControls.GenerateQuestion` made while the level is still the one the flag was raised under (see "## Left out" for what this does not capture).
  - A played test is the function `TestMode.Play`, which folds `Checked` over a sequence of rounds.
- `scenarios.dfy`: `checkAnswer` worked through on 3 × 4 with a right answer and with a wrong one.

Some behaviour of the code is easy to miss, and the model follows the code in each case:

- **No floor on `questionsLeft`.** `checkAnswer` decrements it with no lower bound (src/redux/features/multiplicationSlice.ts:118). It is therefore an `int`. Only the view keeps it from going below 0: the answer field exists only while `questionsLeft > 0` (`TestMode.PanelFor`, `TestMode.SubmitShownQuestion`).
- **Practice auto-advances.** After every check with a non-empty answer, the practice view schedules a new question (src/components/PracticeMode.tsx:103-106). There is no explicit "next" action.
- **`setMode` keeps the explanation.** It clears the answer and the verdict, but not the explanation.
- **`setQuestion` accepts any factors.** The reducer does not check that the factors are positive; it accepts whatever it is given. The generator only ever produces factors of at least 1 (`QuizControls.Draw`).

## Model

| member | source | states |
|---|---|---|
| Numerals.NatToString | src/redux/features/multiplicationSlice.ts:98 | `${n}` of a natural number is a non-empty string of decimal digits with no leading zero |
| Numerals.ParseDigits | src/redux/features/multiplicationSlice.ts:88 | `parseInt` of a digits-only string is `NaN` for the empty string, otherwise the number its digits spell in base 10 |
| Numerals.ValueOfNatToString | src/redux/features/multiplicationSlice.ts:98 | the digits of `${n}` read back in base 10 give n |
| Numerals.ParseIntToString | src/redux/features/multiplicationSlice.ts:88 | `parseInt(`${k}`)` is k for every integer k, negative numbers included |
| Numerals.ParseInt | src/redux/features/multiplicationSlice.ts:88 | `parseInt` with no radix: skips leading white space, takes an optional sign, reads radix 16 after a `0x` prefix and radix 10 otherwise, then the value of the longest digit run; no digits gives `NaN` (`None`) |
| Numerals.DigitsOnly | src/components/TestMode.tsx:75 | the `/^\d*$/` test: true exactly when every character is an ASCII digit, the empty string included; the practice view's copy (src/components/PracticeMode.tsx:94) is the same |
| MultiplicationSlice.FriendlyWord | src/redux/features/multiplicationSlice.ts:4-12 | the result is the prefix, a space, then "коробке" when the number is 1 and "коробках" otherwise; the 2..4 branch gives the same word as the last branch |
| MultiplicationSlice.Checked | src/redux/features/multiplicationSlice.ts:85-128 | `isCorrect` is whether `parseInt(answer)` equals factor1·factor2; the explanation is the praise or the mistake explanation accordingly; in test mode `questionsLeft` drops by exactly 1 and `correctAnswers` grows by 1 exactly when right, with stats untouched; otherwise `stats.total` grows by 1 and `stats.correct` by 1 exactly when right, with the test counters untouched; no other field changes; `correct ≤ total` and `correctAnswers + questionsLeft ≤ totalQuestions` are preserved |
| MultiplicationSlice.ExplainMistake | src/redux/features/multiplicationSlice.ts:93-112 | the text built by appending one " + f1" per pass of the loop, then " = p", then the story or the plain answer, is exactly `MistakeExplanation` |
| MultiplicationSlice.ChainIsJoin | src/redux/features/multiplicationSlice.ts:98-101 | the additive chain is factor1 written factor2 times joined by " + " |
| MultiplicationSlice.ChainAddsUp | src/redux/features/multiplicationSlice.ts:98-102 | the printed terms of the chain (factor1's numeral written factor2 times, as `ChainIsJoin` shows), read back as numbers, add up to the product the chain is set equal to |
| MultiplicationSlice.MistakeShowsChain | src/redux/features/multiplicationSlice.ts:95-102 | a wrong-answer explanation contains factor1 repeated factor2 times joined by " + ", then " = " and the product |
| MultiplicationSlice.SmallFactorsClosing | src/redux/features/multiplicationSlice.ts:104-107 | when both factors are at most 5, the explanation ends with the candy-and-boxes story and does not end with "Правильный ответ: p" |
| MultiplicationSlice.LargeFactorsClosing | src/redux/features/multiplicationSlice.ts:104-110 | when a factor is above 5, the explanation ends with "Правильный ответ: " followed by the product and does not end with the candy story |
| MultiplicationSlice.PraiseOpening | src/redux/features/multiplicationSlice.ts:114 | the praise text starts with "Отлично! " |
| MultiplicationSlice.MistakeOpening | src/redux/features/multiplicationSlice.ts:95 | the mistake explanation starts with "У", the first letter of "Умножение" |
| MultiplicationSlice.ExplanationTellsVerdict | src/redux/features/multiplicationSlice.ts:89-115 | after a check the explanation starts with "Отлично! " exactly when the answer was right |
| MultiplicationSlice.VerdictOnDigits | src/redux/features/multiplicationSlice.ts:86-89 | a digits-only answer is right exactly when it is non-empty and spells the product; the empty answer is never right |
| MultiplicationSlice.VerdictOnNumeral | src/redux/features/multiplicationSlice.ts:86-89 | typing the numeral of k is judged right exactly when k is the product |
| MultiplicationSlice.Store.constructor | src/redux/features/multiplicationSlice.ts:39-59 | initial state: study mode, no active table, easy level, question 0 × 0, empty answer and explanation, no verdict, stats 0/0, test 10/0/10; the counter invariants hold |
| MultiplicationSlice.Store.SetMode | src/redux/features/multiplicationSlice.ts:65-69 | sets the mode, clears the answer and the verdict, and keeps everything else, the explanation included |
| MultiplicationSlice.Store.SetActiveTable | src/redux/features/multiplicationSlice.ts:70-72 | changes the active table and nothing else |
| MultiplicationSlice.Store.SetLevel | src/redux/features/multiplicationSlice.ts:73-75 | changes the level and nothing else; the question stays |
| MultiplicationSlice.Store.SetQuestion | src/redux/features/multiplicationSlice.ts:76-81 | sets the question and clears the answer, verdict and explanation, whatever they were; nothing else changes |
| MultiplicationSlice.Store.SetAnswer | src/redux/features/multiplicationSlice.ts:82-84 | changes the answer and nothing else |
| MultiplicationSlice.Store.CheckAnswer | src/redux/features/multiplicationSlice.ts:85-128 | the new state is `Checked` of the old one |
| MultiplicationSlice.Store.ResetTestMode | src/redux/features/multiplicationSlice.ts:129-135 | the test counters become 10/0/10 whatever they were; nothing else changes |
| MultiplicationSlice.Store.ResetStats | src/redux/features/multiplicationSlice.ts:136-141 | the stats become 0/0 whatever they were; nothing else changes |
| QuizControls.Draw | src/components/TestMode.tsx:50-66 | the drawn factors lie in [1,5] at easy, [2,8] at medium and [1,10] at hard; both are at least 1 and their product is at most 100 |
| QuizControls.DrawIsBijective | src/components/PracticeMode.tsx:64-80 | every question in the level's range comes from exactly one pair of indices, so uniform indices give uniform questions |
| QuizControls.GenerateQuestion | src/components/TestMode.tsx:47-69 | dispatches `setQuestion` with the level's question for the drawn indices; the new question lies in the level's range; the practice view's copy (src/components/PracticeMode.tsx:61-83) is the same |
| QuizControls.HandleInputChange | src/components/TestMode.tsx:72-78 | a value reaches `setAnswer` exactly when it is digits-only, the empty string included; otherwise the store is unchanged; a digits-only answer stays digits-only; the practice view's copy (src/components/PracticeMode.tsx:91-97) is the same |
| TestMode.HandleCheckAnswer | src/components/TestMode.tsx:81-92 | an empty answer changes nothing; otherwise the state becomes `Checked` of the old one; the next question is scheduled exactly when the answer was non-empty and more than one question was left before the check |
| TestMode.HandleKeyPress | src/components/TestMode.tsx:95-99 | Enter with a non-empty answer acts as the submit button; any other key, or an empty answer, changes nothing and schedules nothing |
| TestMode.HandleRestartTest | src/components/TestMode.tsx:102-105 | the test counters become 10/0/10, a new question of the level is set, and the answer, verdict and explanation are cleared |
| TestMode.SubmitShownQuestion | src/components/TestMode.tsx:81-144 | submitting a non-empty answer while the question panel is shown (line 144) applies `checkAnswer` and schedules a next question exactly when the question panel is still shown afterwards; the last question switches to the results panel with nothing scheduled |
| TestMode.AnsweredCount | src/components/TestMode.tsx:128 | the progress count shown as "Тест: n из total": total questions minus the questions left |
| TestMode.FullCountMeansAllRight | src/redux/features/multiplicationSlice.ts:119-121 | the count of right rounds equals the number of rounds exactly when every round was right |
| TestMode.PlayCounts | src/redux/features/multiplicationSlice.ts:117-121 | over any sequence of rounds in test mode, `questionsLeft` drops by the number of rounds and `correctAnswers` grows by the number of right ones; stats and the mode are untouched |
| TestMode.FreshTestProgress | src/components/TestMode.tsx:128-144 | from a fresh test, after k rounds the answered count shown is k; the score is the number of right rounds and at most k; the next question is scheduled only while k < 9; the results panel appears exactly from k = 10 |
| TestMode.PerfectTest | src/components/TestMode.tsx:193-214 | ten right answers from a fresh test end at 0 left, 10 of 10 right, on the results panel |
| PracticeMode.HandleLevelChange | src/components/PracticeMode.tsx:86-88 | only the level changes; the question stays until the level effect runs |
| PracticeMode.LevelEffect | src/components/PracticeMode.tsx:118-120 | on first mount, or when the level differs from the one last seen, a new question of the level is set; otherwise nothing changes |
| PracticeMode.HandleCheckAnswer | src/components/PracticeMode.tsx:100-108 | an empty answer changes nothing; otherwise the state becomes `Checked` of the old one and a next question is always scheduled |
| PracticeMode.HandleKeyPress | src/components/PracticeMode.tsx:111-115 | Enter with a non-empty answer acts as the submit button; anything else changes nothing |
| PracticeMode.StatsPercent | src/components/PracticeMode.tsx:206 | 0 before any attempt; otherwise the integer nearest to 100·correct/total, halves rounded up; between 0 and 100 when correct ≤ total; 100 when every attempt was right |
| PracticeMode.PercentMonotone | src/components/PracticeMode.tsx:206 | a larger ratio of right answers never shows a smaller percentage |
| PracticeMode.CheckMovesPercent | src/components/PracticeMode.tsx:206 | a right answer never lowers the shown percentage, and a wrong one never raises it |
| StudyMode.HandleTableSelect | src/components/StudyMode.tsx:84-86 | a button stores its number as the active table and changes nothing else |
| StudyMode.ActiveButtonIsUnique | src/components/StudyMode.tsx:179-197 | the buttons are tables 1..10 and then "all" (0); a button is marked active exactly when the active table is one of 0..10, and never two at once |
| StudyMode.IsHighlighted | src/components/StudyMode.tsx:120-121 | a cell (i, j) is highlighted when the active table is neither null nor 0 and equals i or j |
| StudyMode.RenderMultiplicationTable | src/components/StudyMode.tsx:89-149 | the header lists 1..10; row i shows i·j for j in 1..10; a cell is highlighted exactly when a table other than 0 is active and the cell lies in its row or column |
| StudyMode.RowPrefixCount | src/components/StudyMode.tsx:119-121 | in row i, every cell is highlighted when i is the active table; otherwise only the cell in the active table's column is, if there is one |
| StudyMode.GridPrefixCount | src/components/StudyMode.tsx:114-121 | the highlighted cells in the first m rows are the active row, if present, plus one cell of each other row |
| StudyMode.HighlightCount | src/components/StudyMode.tsx:114-135 | active table a in 1..10 highlights exactly 19 cells (row a and column a share one); null, "all" or any other number highlights none |
| Scenarios.RightAnswerScenario | src/redux/features/multiplicationSlice.ts:113-115 | in practice, 3 × 4 answered "12" is right, praised as "Отлично! 3 × 4 = 12", and counted as 1 of 1 |
| Scenarios.WrongAnswerScenario | src/redux/features/multiplicationSlice.ts:93-112 | 3 × 4 answered "11" is wrong; the explanation contains "3 + 3 + 3 + 3 = 12" and ends with the candy story; stats become 0 of 1 |

## Left out

- Styling, layout and JSX: the `styled(...)` components, `sx` props and markup of every view. This is presentation only.
- The "Правильно!" / "Неверно!" feedback line and the rendering of the question and explanation text: presentation of fields the model already holds.
- Timers: the 1.5-second `setTimeout` before the next question is replaced by the `scheduleNext` flag. The source never cancels these timers, and each one runs the generator from the render that armed it, so it draws with the level that was current then. A level change or a mode switch within the delay is not modelled: for example, in practice at easy, submitting "7" and picking the hard level within 1.5 seconds lets the stale timer replace the hard question with an easy one while the level stays hard.
- `Math.random()`: replaced by index parameters. The `default` branches of the level switches are left out, because `Level` is a closed datatype and they cannot be reached.
- React hooks (`useCallback`, `useEffect`, `useAppSelector`): framework plumbing. The practice view's level effect is modelled as `PracticeMode.LevelEffect`, with the level it last saw passed in explicitly. The test view's mount effect is a call of `QuizControls.GenerateQuestion`.
- The test progress bar (src/components/TestMode.tsx:113) and the final score percentage (src/components/TestMode.tsx:214): both are floating-point display arithmetic.
- PracticeMode.StatsPercent: rounds the exact ratio. The source rounds the floating-point value of `correct / total * 100`, and the two differ when the exact value is a half that the floating-point product falls just below; 23 of 40 is such a case.
- Numerals.ParseInt: numbers are unbounded. JavaScript loses precision above 2^53, and renders numbers of 10^21 or more in exponent form. The answer field accepts any number of digits, but a value above 2^53 can never equal a product of at most 100, so the verdict is unaffected.
- MultiplicationSlice.Store.SetQuestion: factors are natural numbers. Negative or fractional factors are not modelled; no caller produces them.
- src/components/MultiplicationApp.tsx is not part of this model: it only dispatches `setMode` and picks a view.
- The framework wiring is not part of this model: src/app/layout.tsx, src/app/page.tsx, src/app/providers.tsx, src/redux/store/index.ts and next.config.js.
