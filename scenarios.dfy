/** Worked examples of `checkAnswer` on the question 3 × 4 in practice mode. */
module Scenarios {
  import opened Wrappers
  import opened Numerals
  import opened MultiplicationSlice

  const ThreeTimesFour := InitialState.(mode := Practice, level := Easy, question := Question(3, 4))

  lemma ShortNumerals()
    ensures NatToString(3) == "3" && NatToString(4) == "4"
    ensures NatToString(11) == "11" && NatToString(12) == "12"
  {
    assert NatToString(1) == "1";
  }

  /** Answering "12" is right, praised with the full equation, and counted. */
  lemma RightAnswerScenario()
    ensures Checked(ThreeTimesFour.(answer := "12")).isCorrect == Some(true)
    ensures Checked(ThreeTimesFour.(answer := "12")).explanation == "Отлично! 3 × 4 = 12"
    ensures Checked(ThreeTimesFour.(answer := "12")).stats == Stats(1, 1)
  {
    ShortNumerals();
    VerdictOnNumeral(Question(3, 4), 12);
  }

  lemma ExplanationOfThreeTimesFour()
    ensures IsInfix("3 + 3 + 3 + 3 = 12", MistakeExplanation(3, 4))
    ensures EndsWith(MistakeExplanation(3, 4), Analogy(3, 4))
  {
    ShortNumerals();
    assert Chain(3, 2) == "3 + 3";
    assert Chain(3, 4) == "3 + 3 + 3 + 3";
    assert Equation(3, 4) == "3 + 3 + 3 + 3 = 12";
    InfixOfConcat(Intro(3, 4), Equation(3, 4), "\n\n", Closing(3, 4));
    SmallFactorsClosing(3, 4);
  }

  /** Answering "11" is wrong; the explanation adds 3 four times and tells the candy story. */
  lemma WrongAnswerScenario()
    ensures Checked(ThreeTimesFour.(answer := "11")).isCorrect == Some(false)
    ensures IsInfix("3 + 3 + 3 + 3 = 12", Checked(ThreeTimesFour.(answer := "11")).explanation)
    ensures EndsWith(Checked(ThreeTimesFour.(answer := "11")).explanation, Analogy(3, 4))
    ensures Checked(ThreeTimesFour.(answer := "11")).stats == Stats(0, 1)
  {
    ShortNumerals();
    VerdictOnNumeral(Question(3, 4), 11);
    ExplanationOfThreeTimesFour();
  }
}
