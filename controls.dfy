/**
 * What the test view and the practice view share: drawing a question for the
 * current level and the digits-only filter on the answer field. `Math.random()`
 * is replaced by the two indices `r1, r2` that `Math.floor(Math.random() * n)`
 * would have produced.
 */
module QuizControls {
  import opened Wrappers
  import opened Numerals
  import opened MultiplicationSlice

  /** The `n` in `Math.floor(Math.random() * n)` at each level. */
  function Width(level: Level): nat {
    match level
    case Easy => 5
    case Medium => 7
    case Hard => 10
  }

  /** The constant added to the drawn index at each level. */
  function Low(level: Level): nat {
    match level
    case Easy => 1
    case Medium => 2
    case Hard => 1
  }

  /** The largest factor each level may ask about. */
  function High(level: Level): nat {
    match level
    case Easy => 5
    case Medium => 8
    case Hard => 10
  }

  /** Both factors lie in the level's range. */
  predicate InRange(level: Level, q: Question) {
    Low(level) <= q.factor1 <= High(level) && Low(level) <= q.factor2 <= High(level)
  }

  /** The question the two drawn indices stand for. */
  function Draw(level: Level, r1: nat, r2: nat): (q: Question)
    requires r1 < Width(level) && r2 < Width(level)
    ensures InRange(level, q)
    ensures 1 <= q.factor1 && 1 <= q.factor2 && q.factor1 * q.factor2 <= 100
  {
    var q := Question(Low(level) + r1, Low(level) + r2);
    assert q.factor1 * q.factor2 <= 10 * 10 by {
      assert q.factor1 * q.factor2 <= 10 * q.factor2;
    }
    q
  }

  /**
   * Every question in the level's range is drawn by exactly one pair of indices,
   * so uniform indices give uniformly distributed questions.
   */
  lemma DrawIsBijective(level: Level, q: Question)
    requires InRange(level, q)
    ensures exists r1: nat, r2: nat :: r1 < Width(level) && r2 < Width(level) && Draw(level, r1, r2) == q
    ensures forall r1: nat, r2: nat :: r1 < Width(level) && r2 < Width(level) && Draw(level, r1, r2) == q ==>
              r1 == q.factor1 - Low(level) && r2 == q.factor2 - Low(level)
  {
    var r1: nat, r2: nat := q.factor1 - Low(level), q.factor2 - Low(level);
    assert r1 < Width(level) && r2 < Width(level) && Draw(level, r1, r2) == q;
  }

  /**
   * `generateTestQuestion` and `generateQuestion`: pick the factors by level,
   * then dispatch `setQuestion`.
   */
  method GenerateQuestion(store: Store, r1: nat, r2: nat)
    requires r1 < Width(store.level) && r2 < Width(store.level)
    modifies store
    ensures store.Snapshot() == old(store.Snapshot()).(question := Draw(old(store.level), r1, r2),
                                                      answer := "", isCorrect := None, explanation := "")
    ensures InRange(store.level, store.question)
  {
    var factor1: nat, factor2: nat;
    match store.level {
      case Easy =>
        factor1 := r1 + 1;
        factor2 := r2 + 1;
      case Medium =>
        factor1 := r1 + 2;
        factor2 := r2 + 2;
      case Hard =>
        factor1 := r1 + 1;
        factor2 := r2 + 1;
    }
    store.SetQuestion(Question(factor1, factor2));
  }

  /** `handleInputChange` / `handleAnswerChange`: only a digits-only value reaches the store. */
  method HandleInputChange(store: Store, value: string)
    modifies store
    ensures DigitsOnly(value) ==> store.Snapshot() == old(store.Snapshot()).(answer := value)
    ensures !DigitsOnly(value) ==> store.Snapshot() == old(store.Snapshot())
    ensures DigitsOnly(old(store.answer)) ==> DigitsOnly(store.answer)
  {
    if DigitsOnly(value) {
      store.SetAnswer(value);
    }
  }
}
