/**
 * The test view (src/components/TestMode.tsx): ten questions in a row, the
 * submit guards, the decision to schedule the next question, restarting, and
 * which panel is shown. A scheduled question is returned as a flag instead of
 * a timer; the caller then runs `QuizControls.GenerateQuestion`.
 */
module TestMode {
  import opened Wrappers
  import opened MultiplicationSlice
  import opened QuizControls

  /**
   * `handleCheckAnswer`: an empty answer does nothing. Otherwise the answer is
   * checked and the next question is scheduled when more than one question was
   * left before the check.
   */
  method HandleCheckAnswer(store: Store) returns (scheduleNext: bool)
    modifies store
    ensures old(store.answer) == "" ==> store.Snapshot() == old(store.Snapshot())
    ensures old(store.answer) != "" ==> store.Snapshot() == Checked(old(store.Snapshot()))
    ensures scheduleNext <==> old(store.answer) != "" && old(store.testMode.questionsLeft) > 1
  {
    scheduleNext := false;
    if store.answer != "" {
      var questionsLeft := store.testMode.questionsLeft;
      store.CheckAnswer();
      if questionsLeft > 1 {
        scheduleNext := true;
      }
    }
  }

  /** `handleKeyPress`: Enter with a non-empty answer submits it; any other key does nothing. */
  method HandleKeyPress(store: Store, key: string) returns (scheduleNext: bool)
    modifies store
    ensures key != "Enter" || old(store.answer) == "" ==> store.Snapshot() == old(store.Snapshot()) && !scheduleNext
    ensures key == "Enter" && old(store.answer) != "" ==>
      store.Snapshot() == Checked(old(store.Snapshot())) && (scheduleNext <==> old(store.testMode.questionsLeft) > 1)
  {
    if key == "Enter" && store.answer != "" {
      scheduleNext := HandleCheckAnswer(store);
    } else {
      scheduleNext := false;
    }
  }

  /** `handleRestartTest`: fresh counters and a fresh question. */
  method HandleRestartTest(store: Store, r1: nat, r2: nat)
    requires r1 < Width(store.level) && r2 < Width(store.level)
    modifies store
    ensures store.Snapshot() == old(store.Snapshot()).(testMode := FreshTest, question := Draw(old(store.level), r1, r2),
                                                      answer := "", isCorrect := None, explanation := "")
  {
    store.ResetTestMode();
    GenerateQuestion(store, r1, r2);
  }

  /** The number shown as "Тест: n из total вопросов". */
  function AnsweredCount(t: TestProgress): int {
    t.totalQuestions - t.questionsLeft
  }

  datatype Panel = QuestionPanel | ResultsPanel

  /** The question is shown while questions are left, the results afterwards. */
  function PanelFor(t: TestProgress): Panel {
    if t.questionsLeft > 0 then QuestionPanel else ResultsPanel
  }

  /**
   * Submitting an answer while a question is shown: a next question is scheduled
   * exactly when the question panel stays, and the last question of a test
   * switches to the results panel with nothing scheduled.
   */
  method SubmitShownQuestion(store: Store) returns (scheduleNext: bool)
    requires store.mode == Test && PanelFor(store.testMode) == QuestionPanel && store.answer != ""
    modifies store
    ensures store.Snapshot() == Checked(old(store.Snapshot()))
    ensures scheduleNext <==> PanelFor(store.testMode) == QuestionPanel
    ensures old(store.testMode.questionsLeft) == 1 ==> PanelFor(store.testMode) == ResultsPanel && !scheduleNext
  {
    scheduleNext := HandleCheckAnswer(store);
  }

  /** One round of a test as the user plays it: a new question, then an answer typed and submitted. */
  datatype Round = Round(question: Question, answer: string)

  function Ask(s: State, r: Round): State {
    s.(question := r.question, answer := r.answer, isCorrect := None, explanation := "")
  }

  /** The state after the rounds are played one after another. */
  function Play(s: State, rounds: seq<Round>): State
    decreases |rounds|
  {
    if rounds == [] then s else Play(Checked(Ask(s, rounds[0])), rounds[1..])
  }

  /** How many rounds were answered right. */
  function RightCount(rounds: seq<Round>): (n: nat)
    ensures n <= |rounds|
  {
    if rounds == [] then 0
    else (if Verdict(rounds[0].question, rounds[0].answer) then 1 else 0) + RightCount(rounds[1..])
  }

  /** Every round counts as right exactly when all of them were answered right. */
  lemma {:induction false} FullCountMeansAllRight(rounds: seq<Round>)
    ensures RightCount(rounds) == |rounds| <==> forall k :: 0 <= k < |rounds| ==> Verdict(rounds[k].question, rounds[k].answer)
    decreases |rounds|
  {
    if rounds != [] {
      FullCountMeansAllRight(rounds[1..]);
      assert forall k :: 1 <= k < |rounds| ==> rounds[k] == rounds[1..][k - 1];
    }
  }

  /** Each round costs one remaining question and earns a point exactly when it is right. */
  lemma {:induction false} PlayCounts(s: State, rounds: seq<Round>)
    requires s.mode == Test
    ensures Play(s, rounds).mode == Test
    ensures Play(s, rounds).stats == s.stats
    ensures Play(s, rounds).testMode == TestProgress(s.testMode.questionsLeft - |rounds|,
                                                     s.testMode.correctAnswers + RightCount(rounds),
                                                     s.testMode.totalQuestions)
    decreases |rounds|
  {
    if rounds != [] {
      var next := Checked(Ask(s, rounds[0]));
      var point := if Verdict(rounds[0].question, rounds[0].answer) then 1 else 0;
      assert next.testMode == TestProgress(s.testMode.questionsLeft - 1, s.testMode.correctAnswers + point,
                                           s.testMode.totalQuestions);
      assert RightCount(rounds) == point + RightCount(rounds[1..]);
      PlayCounts(next, rounds[1..]);
    }
  }

  /**
   * From a fresh test, after k rounds: k questions count as answered, the score
   * is the number of right rounds and never exceeds k, the next question is
   * scheduled only while k < 9, and the results panel appears exactly at k = 10.
   */
  lemma FreshTestProgress(s: State, rounds: seq<Round>)
    requires s.mode == Test && s.testMode == FreshTest
    ensures AnsweredCount(Play(s, rounds).testMode) == |rounds|
    ensures Play(s, rounds).testMode.correctAnswers == RightCount(rounds) <= |rounds|
    ensures Play(s, rounds).testMode.questionsLeft > 1 <==> |rounds| < 9
    ensures PanelFor(Play(s, rounds).testMode) == ResultsPanel <==> |rounds| >= 10
  {
    PlayCounts(s, rounds);
  }

  /** Ten right answers from a fresh test finish it with a perfect score on the results panel. */
  lemma PerfectTest(s: State, rounds: seq<Round>)
    requires s.mode == Test && s.testMode == FreshTest && |rounds| == 10
    requires forall k :: 0 <= k < 10 ==> Verdict(rounds[k].question, rounds[k].answer)
    ensures Play(s, rounds).testMode == TestProgress(0, 10, 10)
    ensures PanelFor(Play(s, rounds).testMode) == ResultsPanel
  {
    PlayCounts(s, rounds);
    FullCountMeansAllRight(rounds);
  }
}
