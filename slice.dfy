/**
 * The application state store of the multiplication quiz: the state record,
 * its initial value, the eight reducers, and the explanation text that
 * `checkAnswer` writes (src/redux/features/multiplicationSlice.ts).
 */
module MultiplicationSlice {
  import opened Wrappers
  import opened Numerals

  datatype Mode = Study | Practice | Test
  datatype Level = Easy | Medium | Hard

  datatype Question = Question(factor1: nat, factor2: nat)

  /** Running statistics of the study and practice modes. */
  datatype Stats = Stats(correct: nat, total: nat)

  /** Progress through a test; `questionsLeft` is decremented with no floor. */
  datatype TestProgress = TestProgress(questionsLeft: int, correctAnswers: nat, totalQuestions: nat)

  /** A snapshot of every field of the store. */
  datatype State = State(
    mode: Mode,
    activeTable: Option<int>,
    level: Level,
    question: Question,
    answer: string,
    isCorrect: Option<bool>,
    explanation: string,
    stats: Stats,
    testMode: TestProgress)

  const FreshTest := TestProgress(10, 0, 10)
  const FreshStats := Stats(0, 0)

  const InitialState := State(Study, None, Easy, Question(0, 0), "", None, "", FreshStats, FreshTest)

  /** The counter invariants: no more correct answers than attempts, in both modes. */
  predicate CountersConsistent(s: State) {
    && s.stats.correct <= s.stats.total
    && s.testMode.correctAnswers + s.testMode.questionsLeft <= s.testMode.totalQuestions
  }

  /** The box word after a number, always preceded by the prefix and a space. */
  function FriendlyWord(num: int, prefix: string): (w: string)
    ensures w == prefix + " " + (if num == 1 then "коробке" else "коробках")
  {
    if num == 1 then prefix + " коробке"
    else if 2 <= num <= 4 then prefix + " коробках"
    else prefix + " коробках"
  }

  /** "f1 + f1 + ... + f1" with `count` terms; a single term when `count` is 0 or 1. */
  function Chain(factor1: nat, count: nat): string {
    if count <= 1 then NatToString(factor1) else Chain(factor1, count - 1) + " + " + NatToString(factor1)
  }

  function Intro(factor1: nat, factor2: nat): string {
    "Умножение " + NatToString(factor1) + " × " + NatToString(factor2)
    + " означает, что нужно сложить число " + NatToString(factor1)
    + " само с собой " + NatToString(factor2) + " раз:\n\n"
  }

  /** The candy-and-boxes story told when both factors are at most 5. */
  function Analogy(factor1: nat, factor2: nat): string {
    "Представь, что у тебя " + NatToString(factor2) + " " + FriendlyWord(factor2, "")
    + " конфет, и в каждой " + FriendlyWord(factor1, "по") + " " + NatToString(factor1) + " штук.\n"
    + "Всего у тебя будет " + NatToString(factor1 * factor2) + " конфет."
  }

  function PlainAnswer(product: nat): string {
    "Правильный ответ: " + NatToString(product)
  }

  function Closing(factor1: nat, factor2: nat): string {
    if factor1 <= 5 && factor2 <= 5 then Analogy(factor1, factor2) else PlainAnswer(factor1 * factor2)
  }

  /** "f1 + ... + f1 = p". */
  function Equation(factor1: nat, factor2: nat): string {
    Chain(factor1, factor2) + " = " + NatToString(factor1 * factor2)
  }

  /** The explanation written after a wrong answer. */
  function MistakeExplanation(factor1: nat, factor2: nat): string {
    Intro(factor1, factor2) + Equation(factor1, factor2) + "\n\n" + Closing(factor1, factor2)
  }

  /** The explanation written after a right answer. */
  function Praise(factor1: nat, factor2: nat): string {
    "Отлично! " + NatToString(factor1) + " × " + NatToString(factor2) + " = " + NatToString(factor1 * factor2)
  }

  /** `parseInt(answer) === factor1 * factor2`. */
  predicate Verdict(q: Question, answer: string) {
    ParseInt(answer) == Some(q.factor1 * q.factor2)
  }

  /** The state after `checkAnswer`. */
  function Checked(s: State): (t: State)
    ensures t.isCorrect == Some(Verdict(s.question, s.answer))
    ensures t.explanation == if Verdict(s.question, s.answer)
                             then Praise(s.question.factor1, s.question.factor2)
                             else MistakeExplanation(s.question.factor1, s.question.factor2)
    ensures s.mode == Test ==>
      && t.testMode.questionsLeft == s.testMode.questionsLeft - 1
      && t.testMode.correctAnswers == s.testMode.correctAnswers + (if Verdict(s.question, s.answer) then 1 else 0)
      && t.testMode.totalQuestions == s.testMode.totalQuestions
      && t.stats == s.stats
    ensures s.mode != Test ==>
      && t.stats.total == s.stats.total + 1
      && t.stats.correct == s.stats.correct + (if Verdict(s.question, s.answer) then 1 else 0)
      && t.testMode == s.testMode
    ensures t.(isCorrect := s.isCorrect, explanation := s.explanation, stats := s.stats, testMode := s.testMode) == s
    ensures CountersConsistent(s) ==> CountersConsistent(t)
  {
    var factor1, factor2 := s.question.factor1, s.question.factor2;
    var correct := ParseInt(s.answer) == Some(factor1 * factor2);
    Tallied(s.(isCorrect := Some(correct), explanation := ExplanationFor(factor1, factor2, correct)), correct)
  }

  /** The explanation `checkAnswer` writes for the verdict. */
  function ExplanationFor(factor1: nat, factor2: nat, correct: bool): string {
    if correct then Praise(factor1, factor2) else MistakeExplanation(factor1, factor2)
  }

  /** The counting step of `checkAnswer`: the test counters in test mode, the practice statistics otherwise. */
  function Tallied(s: State, correct: bool): State {
    var bonus := if correct then 1 else 0;
    if s.mode == Test then
      s.(testMode := s.testMode.(questionsLeft := s.testMode.questionsLeft - 1,
                                 correctAnswers := s.testMode.correctAnswers + bonus))
    else
      s.(stats := Stats(s.stats.correct + bonus, s.stats.total + 1))
  }

  /** Builds the wrong-answer explanation the way `checkAnswer` does, appending one term per pass. */
  method ExplainMistake(factor1: nat, factor2: nat) returns (text: string)
    ensures text == MistakeExplanation(factor1, factor2)
  {
    var correctAnswer: nat := factor1 * factor2;
    text := Intro(factor1, factor2);
    text := text + NatToString(factor1);
    var i := 1;
    while i < factor2
      invariant 1 <= i <= if factor2 == 0 then 1 else factor2
      invariant text == Intro(factor1, factor2) + Chain(factor1, i)
    {
      text := text + " + " + NatToString(factor1);
      i := i + 1;
    }
    assert Chain(factor1, i) == Chain(factor1, factor2);
    Associate(Intro(factor1, factor2), Chain(factor1, factor2), " = ", NatToString(correctAnswer));
    text := text + " = " + NatToString(correctAnswer) + "\n\n";
    if factor1 <= 5 && factor2 <= 5 {
      text := text + Analogy(factor1, factor2);
    } else {
      text := text + PlainAnswer(correctAnswer);
    }
  }

  /** `n` copies of `x`. */
  function Replicate<T>(x: T, n: nat): (r: seq<T>)
    ensures |r| == n && forall k :: 0 <= k < n ==> r[k] == x
  {
    if n == 0 then [] else Replicate(x, n - 1) + [x]
  }

  /** The parts joined with the separator between consecutive parts. */
  function Join(parts: seq<string>, sep: string): string {
    if |parts| == 0 then ""
    else if |parts| == 1 then parts[0]
    else Join(parts[..|parts| - 1], sep) + sep + parts[|parts| - 1]
  }

  function Sum(xs: seq<nat>): nat {
    if xs == [] then 0 else Sum(xs[..|xs| - 1]) + xs[|xs| - 1]
  }

  predicate StartsWith(s: string, prefix: string) {
    |prefix| <= |s| && s[..|prefix|] == prefix
  }

  predicate EndsWith(s: string, suffix: string) {
    |suffix| <= |s| && s[|s| - |suffix|..] == suffix
  }

  predicate IsInfix(part: string, s: string) {
    exists i, j :: 0 <= i <= j <= |s| && s[i..j] == part
  }

  lemma InfixOfConcat(a: string, b: string, c: string, d: string)
    ensures IsInfix(b, a + b + c + d)
  {
    var s := a + b + c + d;
    assert s[|a|..|a| + |b|] == b;
  }

  lemma Associate(a: string, b: string, c: string, d: string)
    ensures a + b + c + d == a + (b + c + d)
  {
  }

  lemma StartsWithAppend(x: string, y: string, prefix: string)
    requires StartsWith(x, prefix)
    ensures StartsWith(x + y, prefix)
  {
    assert (x + y)[..|prefix|] == x[..|prefix|];
  }

  lemma LastOfConcat(a: string, b: string)
    requires |b| > 0
    ensures EndsWith(a + b, b) && (a + b)[|a + b| - 1] == b[|b| - 1]
  {
    assert (a + b)[|a|..] == b;
  }

  /** The additive chain is factor1 written `count` times, joined by " + ". */
  lemma {:induction false} ChainIsJoin(factor1: nat, count: nat)
    requires count >= 1
    ensures Chain(factor1, count) == Join(Replicate(NatToString(factor1), count), " + ")
  {
    var parts := Replicate(NatToString(factor1), count);
    if count > 1 {
      assert parts[..count - 1] == Replicate(NatToString(factor1), count - 1);
      ChainIsJoin(factor1, count - 1);
    }
  }

  /** The numbers the printed terms spell, in order. */
  function TermValues(terms: seq<string>): (values: seq<nat>)
    ensures |values| == |terms|
  {
    if terms == [] then [] else TermValues(terms[..|terms| - 1]) + [ValueIn(terms[|terms| - 1], 10)]
  }

  /** `count` copies of a term, read back as numbers, add up to `count` times its value. */
  lemma {:induction false} RepeatedTermsAddUp(term: string, value: nat, count: nat)
    requires ValueIn(term, 10) == value
    ensures Sum(TermValues(Replicate(term, count))) == value * count
  {
    if count > 0 {
      var terms := Replicate(term, count);
      var values := TermValues(terms);
      assert terms[..count - 1] == Replicate(term, count - 1);
      assert values[..count - 1] == TermValues(terms[..count - 1]);
      RepeatedTermsAddUp(term, value, count - 1);
      assert value * count == value * (count - 1) + value;
    }
  }

  /** The printed terms of the chain, read back as numbers, add up to the product it is set equal to. */
  lemma ChainAddsUp(factor1: nat, count: nat)
    ensures Sum(TermValues(Replicate(NatToString(factor1), count))) == factor1 * count
  {
    ValueOfNatToString(factor1);
    RepeatedTermsAddUp(NatToString(factor1), factor1, count);
  }

  /** A wrong answer is explained by "f1 + ... + f1 = p" with factor2 terms. */
  lemma MistakeShowsChain(factor1: nat, factor2: nat)
    requires factor2 >= 1
    ensures IsInfix(Join(Replicate(NatToString(factor1), factor2), " + ") + " = " + NatToString(factor1 * factor2),
                    MistakeExplanation(factor1, factor2))
  {
    ChainIsJoin(factor1, factor2);
    InfixOfConcat(Intro(factor1, factor2), Equation(factor1, factor2), "\n\n", Closing(factor1, factor2));
  }

  /** A string cannot end with two suffixes whose last characters differ. */
  lemma LastDiffers(s: string, suffix: string, other: string)
    requires EndsWith(s, suffix) && |suffix| > 0 && |other| > 0
    requires suffix[|suffix| - 1] != other[|other| - 1]
    ensures !EndsWith(s, other)
  {
    assert s[|s| - 1] == suffix[|suffix| - 1];
  }

  lemma LastOfSuffix(s: string, suffix: string)
    requires EndsWith(s, suffix) && |suffix| > 0
    ensures |s| > 0 && s[|s| - 1] == suffix[|suffix| - 1]
  {
    assert s[|s| - |suffix|..][|suffix| - 1] == s[|s| - 1];
  }

  /** A string does not end with a suffix whose last character differs from its own. */
  lemma LastNotMatching(s: string, other: string)
    requires |s| > 0 && |other| > 0 && s[|s| - 1] != other[|other| - 1]
    ensures !EndsWith(s, other)
  {
    if |other| <= |s| {
      assert s[|s| - |other|..][|other| - 1] == s[|s| - 1];
    }
  }

  /** The candy story ends with a full stop. */
  lemma AnalogyEndsWithStop(factor1: nat, factor2: nat)
    ensures |Analogy(factor1, factor2)| > 0 && Analogy(factor1, factor2)[|Analogy(factor1, factor2)| - 1] == '.'
  {
    var lead := "Представь, что у тебя " + NatToString(factor2) + " " + FriendlyWord(factor2, "")
      + " конфет, и в каждой " + FriendlyWord(factor1, "по") + " " + NatToString(factor1) + " штук.\n"
      + "Всего у тебя будет " + NatToString(factor1 * factor2);
    LastOfConcat(lead, " конфет.");
  }

  /** The plain answer ends with a digit of the product. */
  lemma PlainAnswerEndsWithDigit(product: nat)
    ensures |PlainAnswer(product)| > 0 && IsDecimalDigit(PlainAnswer(product)[|PlainAnswer(product)| - 1])
  {
    LastOfConcat("Правильный ответ: ", NatToString(product));
  }

  lemma SmallFactorsStory(factor1: nat, factor2: nat)
    requires factor1 <= 5 && factor2 <= 5
    ensures EndsWith(MistakeExplanation(factor1, factor2), Analogy(factor1, factor2))
  {
    var body := Intro(factor1, factor2) + Equation(factor1, factor2) + "\n\n";
    LastOfConcat(body, Analogy(factor1, factor2));
  }

  /** When both factors are at most 5, the explanation ends with the candy story and not with the plain answer. */
  lemma SmallFactorsClosing(factor1: nat, factor2: nat)
    requires factor1 <= 5 && factor2 <= 5
    ensures EndsWith(MistakeExplanation(factor1, factor2), Analogy(factor1, factor2))
    ensures !EndsWith(MistakeExplanation(factor1, factor2), PlainAnswer(factor1 * factor2))
  {
    SmallFactorsStory(factor1, factor2);
    AnalogyEndsWithStop(factor1, factor2);
    PlainAnswerEndsWithDigit(factor1 * factor2);
    LastDiffers(MistakeExplanation(factor1, factor2), Analogy(factor1, factor2), PlainAnswer(factor1 * factor2));
  }

  /** When a factor is above 5, the explanation ends with "Правильный ответ: " and the product. */
  lemma LargeFactorsClosing(factor1: nat, factor2: nat)
    requires factor1 > 5 || factor2 > 5
    ensures EndsWith(MistakeExplanation(factor1, factor2), PlainAnswer(factor1 * factor2))
    ensures !EndsWith(MistakeExplanation(factor1, factor2), Analogy(factor1, factor2))
  {
    LargeFactorsPlain(factor1, factor2);
    PlainExcludesStory(factor1, factor2);
  }

  /** An explanation that ends with the plain answer does not end with the candy story. */
  lemma PlainExcludesStory(factor1: nat, factor2: nat)
    ensures EndsWith(MistakeExplanation(factor1, factor2), PlainAnswer(factor1 * factor2))
            ==> !EndsWith(MistakeExplanation(factor1, factor2), Analogy(factor1, factor2))
  {
    var m := MistakeExplanation(factor1, factor2);
    if EndsWith(m, PlainAnswer(factor1 * factor2)) {
      PlainAnswerEndsWithDigit(factor1 * factor2);
      LastOfSuffix(m, PlainAnswer(factor1 * factor2));
      AnalogyEndsWithStop(factor1, factor2);
      NoStoryAfterDigit(m, Analogy(factor1, factor2));
    }
  }

  lemma NoStoryAfterDigit(s: string, story: string)
    requires |s| > 0 && IsDecimalDigit(s[|s| - 1])
    requires |story| > 0 && story[|story| - 1] == '.'
    ensures !EndsWith(s, story)
  {
    LastNotMatching(s, story);
  }

  lemma LargeFactorsPlain(factor1: nat, factor2: nat)
    requires factor1 > 5 || factor2 > 5
    ensures EndsWith(MistakeExplanation(factor1, factor2), PlainAnswer(factor1 * factor2))
  {
    var body := Intro(factor1, factor2) + Equation(factor1, factor2) + "\n\n";
    LastOfConcat(body, "Правильный ответ: " + NatToString(factor1 * factor2));
  }

  lemma PraiseOpening(factor1: nat, factor2: nat)
    ensures StartsWith(Praise(factor1, factor2), "Отлично! ")
  {
    var n1, n2, p := NatToString(factor1), NatToString(factor2), NatToString(factor1 * factor2);
    var x := "Отлично! ";
    StartsWithAppend(x, n1, x);
    StartsWithAppend(x + n1, " × ", x);
    StartsWithAppend(x + n1 + " × ", n2, x);
    StartsWithAppend(x + n1 + " × " + n2, " = ", x);
    StartsWithAppend(x + n1 + " × " + n2 + " = ", p, x);
  }

  /** A string cannot start with a prefix whose first character differs from its own. */
  lemma FirstDiffers(s: string, prefix: string)
    requires |s| > 0 && |prefix| > 0 && s[0] != prefix[0]
    ensures !StartsWith(s, prefix)
  {
    if |prefix| <= |s| {
      assert s[..|prefix|][0] == s[0];
    }
  }

  lemma MistakeOpening(factor1: nat, factor2: nat)
    ensures MistakeExplanation(factor1, factor2)[0] == 'У'
  {
    var n1, n2 := NatToString(factor1), NatToString(factor2);
    var x := "Умножение ";
    var s1 := x + n1 + " × " + n2;
    var s2 := s1 + " означает, что нужно сложить число " + n1;
    var s3 := s2 + " само с собой " + n2;
    StartsWithAppend(x, n1, x);
    StartsWithAppend(x + n1, " × ", x);
    StartsWithAppend(x + n1 + " × ", n2, x);
    StartsWithAppend(s1, " означает, что нужно сложить число ", x);
    StartsWithAppend(s1 + " означает, что нужно сложить число ", n1, x);
    StartsWithAppend(s2, " само с собой ", x);
    StartsWithAppend(s2 + " само с собой ", n2, x);
    StartsWithAppend(s3, " раз:\n\n", x);
    var intro := Intro(factor1, factor2);
    assert intro == s3 + " раз:\n\n";
    StartsWithAppend(intro, Equation(factor1, factor2), x);
    StartsWithAppend(intro + Equation(factor1, factor2), "\n\n", x);
    StartsWithAppend(intro + Equation(factor1, factor2) + "\n\n", Closing(factor1, factor2), x);
  }

  /** The mistake explanation never starts with the praise word. */
  lemma MistakeIsNoPraise(factor1: nat, factor2: nat)
    ensures !StartsWith(MistakeExplanation(factor1, factor2), "Отлично! ")
  {
    MistakeOpening(factor1, factor2);
    FirstDiffers(MistakeExplanation(factor1, factor2), "Отлично! ");
  }

  /** The explanation starts with the praise word exactly when the answer was right. */
  lemma ExplanationTellsVerdict(s: State)
    ensures StartsWith(Checked(s).explanation, "Отлично! ") <==> Verdict(s.question, s.answer)
  {
    var f1, f2 := s.question.factor1, s.question.factor2;
    PraiseOpening(f1, f2);
    MistakeIsNoPraise(f1, f2);
  }

  /** An answer that passed the digit filter is right exactly when it is non-empty and spells the product. */
  lemma VerdictOnDigits(q: Question, answer: string)
    requires DigitsOnly(answer)
    ensures Verdict(q, answer) <==> answer != "" && ValueIn(answer, 10) == q.factor1 * q.factor2
  {
    ParseDigits(answer);
  }

  /** Typing the numeral of k is judged right exactly when k is the product. */
  lemma VerdictOnNumeral(q: Question, k: int)
    ensures Verdict(q, IntToString(k)) <==> k == q.factor1 * q.factor2
  {
    ParseIntToString(k);
  }

  /** The store: one mutable field per field of the state record, changed only by the reducers. */
  class Store {
    var mode: Mode
    var activeTable: Option<int>
    var level: Level
    var question: Question
    var answer: string
    var isCorrect: Option<bool>
    var explanation: string
    var stats: Stats
    var testMode: TestProgress

    function Snapshot(): State
      reads this
    {
      State(mode, activeTable, level, question, answer, isCorrect, explanation, stats, testMode)
    }

    constructor ()
      ensures Snapshot() == InitialState
      ensures CountersConsistent(Snapshot())
    {
      mode := Study;
      activeTable := None;
      level := Easy;
      question := Question(0, 0);
      answer := "";
      isCorrect := None;
      explanation := "";
      stats := Stats(0, 0);
      testMode := TestProgress(10, 0, 10);
    }

    /** `setMode`: clears the answer and the verdict but keeps the explanation. */
    method SetMode(m: Mode)
      modifies this
      ensures Snapshot() == old(Snapshot()).(mode := m, answer := "", isCorrect := None)
    {
      mode := m;
      answer := "";
      isCorrect := None;
    }

    method SetActiveTable(table: Option<int>)
      modifies this
      ensures Snapshot() == old(Snapshot()).(activeTable := table)
    {
      activeTable := table;
    }

    /** `setLevel`: the question stays as it is. */
    method SetLevel(l: Level)
      modifies this
      ensures Snapshot() == old(Snapshot()).(level := l)
    {
      level := l;
    }

    method SetQuestion(q: Question)
      modifies this
      ensures Snapshot() == old(Snapshot()).(question := q, answer := "", isCorrect := None, explanation := "")
    {
      question := q;
      answer := "";
      isCorrect := None;
      explanation := "";
    }

    /** `setAnswer`: the store takes any string; filtering is the caller's job. */
    method SetAnswer(s: string)
      modifies this
      ensures Snapshot() == old(Snapshot()).(answer := s)
    {
      answer := s;
    }

    /** `checkAnswer`: judge the answer, explain, and count it in the test or the practice tally. */
    method CheckAnswer()
      modifies this
      ensures Snapshot() == Checked(old(Snapshot()))
    {
      var factor1, factor2 := question.factor1, question.factor2;
      var correctAnswer := factor1 * factor2;
      var userAnswer := ParseInt(answer);
      var correct := userAnswer == Some(correctAnswer);
      ghost var checking := Snapshot().(isCorrect := Some(correct), explanation := ExplanationFor(factor1, factor2, correct));
      isCorrect := Some(correct);
      explanation := Explain(factor1, factor2, correct);
      assert Snapshot() == checking;
      Tally(correct);
    }

    /** The explanation step of `checkAnswer`: praise, or the explanation built by `ExplainMistake`. */
    method Explain(factor1: nat, factor2: nat, correct: bool) returns (text: string)
      ensures text == ExplanationFor(factor1, factor2, correct)
    {
      if !correct {
        text := ExplainMistake(factor1, factor2);
      } else {
        text := Praise(factor1, factor2);
      }
    }

    /** The counting step of `checkAnswer`. */
    method Tally(correct: bool)
      modifies this
      ensures Snapshot() == Tallied(old(Snapshot()), correct)
    {
      if mode == Test {
        testMode := testMode.(questionsLeft := testMode.questionsLeft - 1);
        if correct {
          testMode := testMode.(correctAnswers := testMode.correctAnswers + 1);
        }
      } else {
        stats := stats.(total := stats.total + 1);
        if correct {
          stats := stats.(correct := stats.correct + 1);
        }
      }
    }

    method ResetTestMode()
      modifies this
      ensures Snapshot() == old(Snapshot()).(testMode := FreshTest)
    {
      testMode := TestProgress(10, 0, 10);
    }

    method ResetStats()
      modifies this
      ensures Snapshot() == old(Snapshot()).(stats := FreshStats)
    {
      stats := Stats(0, 0);
    }
  }
}
