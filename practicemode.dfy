/**
 * The practice view (src/components/PracticeMode.tsx): choosing a level, the
 * effect that draws a question whenever the level changes, the submit guards
 * that always schedule the next question, and the percentage in the
 * statistics line.
 */
module PracticeMode {
  import opened Wrappers
  import opened MultiplicationSlice
  import opened QuizControls

  /** `handleLevelChange`: only the level changes; the question is redrawn by `LevelEffect`. */
  method HandleLevelChange(store: Store, newLevel: Level)
    modifies store
    ensures store.Snapshot() == old(store.Snapshot()).(level := newLevel)
  {
    store.SetLevel(newLevel);
  }

  /**
   * The effect that depends on `level`: it runs on first mount (`seen == None`)
   * and whenever the level differs from the one it last ran for, and then draws
   * a new question. It returns the level it has now seen.
   */
  method LevelEffect(store: Store, seen: Option<Level>, r1: nat, r2: nat) returns (seenNow: Option<Level>)
    requires r1 < Width(store.level) && r2 < Width(store.level)
    modifies store
    ensures seenNow == Some(store.level)
    ensures seen == Some(old(store.level)) ==> store.Snapshot() == old(store.Snapshot())
    ensures seen != Some(old(store.level)) ==>
      store.Snapshot() == old(store.Snapshot()).(question := Draw(old(store.level), r1, r2),
                                                answer := "", isCorrect := None, explanation := "")
  {
    if seen != Some(store.level) {
      GenerateQuestion(store, r1, r2);
    }
    seenNow := Some(store.level);
  }

  /** `handleCheckAnswer`: a non-empty answer is checked and a next question is always scheduled. */
  method HandleCheckAnswer(store: Store) returns (scheduleNext: bool)
    modifies store
    ensures old(store.answer) == "" ==> store.Snapshot() == old(store.Snapshot())
    ensures old(store.answer) != "" ==> store.Snapshot() == Checked(old(store.Snapshot()))
    ensures scheduleNext <==> old(store.answer) != ""
  {
    scheduleNext := false;
    if store.answer != "" {
      store.CheckAnswer();
      scheduleNext := true;
    }
  }

  /** `handleKeyPress`: Enter with a non-empty answer submits it; any other key does nothing. */
  method HandleKeyPress(store: Store, key: string) returns (scheduleNext: bool)
    modifies store
    ensures key != "Enter" || old(store.answer) == "" ==> store.Snapshot() == old(store.Snapshot()) && !scheduleNext
    ensures key == "Enter" && old(store.answer) != "" ==> store.Snapshot() == Checked(old(store.Snapshot())) && scheduleNext
  {
    if key == "Enter" && store.answer != "" {
      scheduleNext := HandleCheckAnswer(store);
    } else {
      scheduleNext := false;
    }
  }

  /**
   * The percentage in the statistics line: 0 before any attempt, otherwise
   * `Math.round(correct / total * 100)` taken over the exact ratio, so the
   * nearest integer with halves rounded up.
   */
  function StatsPercent(stats: Stats): (p: int)
    ensures stats.total == 0 ==> p == 0
    ensures stats.total > 0 ==> -(stats.total as int) <= 2 * (100 * stats.correct - p * stats.total) < stats.total
    ensures stats.correct <= stats.total ==> 0 <= p <= 100
    ensures stats.total > 0 && stats.correct == stats.total ==> p == 100
  {
    if stats.total == 0 then 0
    else
      var p := (200 * stats.correct + stats.total) / (2 * stats.total);
      RoundedRatio(stats.correct, stats.total, p);
      p
  }

  /** The facts about `floor((200 c + t) / (2 t))` that make it the rounded percentage. */
  lemma RoundedRatio(c: nat, t: nat, p: int)
    requires t > 0 && p == (200 * c + t) / (2 * t)
    ensures -(t as int) <= 2 * (100 * c - p * t) < t
    ensures c <= t ==> 0 <= p <= 100
    ensures c == t ==> p == 100
  {
    var r := (200 * c + t) % (2 * t);
    assert 200 * c + t == 2 * t * p + r && 0 <= r < 2 * t;
    assert 2 * (100 * c - p * t) == r - t;
    if c <= t && p > 100 {
      MultiplyBoth(101, p, 2 * t);
    }
    if c == t && p < 100 {
      MultiplyBoth(p, 99, 2 * t);
    }
  }

  /** A larger ratio of right answers never shows a smaller percentage. */
  lemma PercentMonotone(a: Stats, b: Stats)
    requires a.total > 0 && b.total > 0
    requires a.correct * b.total <= b.correct * a.total
    ensures StatsPercent(a) <= StatsPercent(b)
  {
    var pa, pb := StatsPercent(a), StatsPercent(b);
    // pa <= x_a + 1/2 <= x_b + 1/2 < pb + 1, with x = 100 * correct / total
    var ta, tb, ca, cb := a.total, b.total, a.correct, b.correct;
    ScaleUpper(pa, ca, ta, tb);
    ScaleLower(pb, cb, tb, ta);
    assert 200 * (ca * tb) + ta * tb <= 200 * (cb * ta) + ta * tb;
    CancelPositive(pa, pb + 1, 2 * (ta * tb));
  }

  /** From 2 t p <= 200 c + t, scaled by k: 2 (t k) p <= 200 (c k) + t k. */
  lemma ScaleUpper(p: int, c: nat, t: nat, k: nat)
    requires -(t as int) <= 2 * (100 * c - p * t)
    ensures 2 * (t * k) * p <= 200 * (c * k) + t * k
  {
    assert 2 * t * p <= 200 * c + t;
    MultiplyBoth(2 * t * p, 200 * c + t, k);
  }

  /** From 200 c - 2 t p < t, scaled by k > 0: 200 (c k) + t k < 2 (t k) (p + 1). */
  lemma ScaleLower(p: int, c: nat, t: nat, k: nat)
    requires 2 * (100 * c - p * t) < t && k > 0
    ensures 200 * (c * k) + k * t < 2 * (k * t) * (p + 1)
  {
    assert 200 * c + t < 2 * t * (p + 1);
    MultiplyStrict(200 * c + t, 2 * t * (p + 1), k);
  }

  lemma CancelPositive(x: int, y: int, k: int)
    requires k > 0 && k * x < k * y
    ensures x < y
  {
    if x >= y {
      MultiplyBoth(y, x, k);
    }
  }

  lemma MultiplyBoth(x: int, y: int, k: nat)
    requires x <= y
    ensures x * k <= y * k
  {
  }

  lemma MultiplyStrict(x: int, y: int, k: nat)
    requires x < y && k > 0
    ensures x * k < y * k
  {
  }

  /** One more right attempt never lowers the percentage. */
  lemma RightKeepsPercent(st: Stats)
    requires st.correct <= st.total
    ensures StatsPercent(Stats(st.correct + 1, st.total + 1)) >= StatsPercent(st)
  {
    if st.total > 0 {
      var c, t := st.correct, st.total;
      assert c * (t + 1) == c * t + c;
      assert (c + 1) * t == c * t + t;
      PercentMonotone(st, Stats(c + 1, t + 1));
    }
  }

  /** One more wrong attempt never raises the percentage. */
  lemma WrongKeepsPercent(st: Stats)
    requires st.correct <= st.total
    ensures StatsPercent(Stats(st.correct, st.total + 1)) <= StatsPercent(st)
  {
    if st.total > 0 {
      var c, t := st.correct, st.total;
      assert c * (t + 1) == c * t + c;
      PercentMonotone(Stats(c, t + 1), st);
    }
  }

  /**
   * A right answer in practice never lowers the shown percentage and a wrong
   * one never raises it.
   */
  lemma CheckMovesPercent(s: State)
    requires s.mode != Test && s.stats.correct <= s.stats.total
    ensures Verdict(s.question, s.answer) ==> StatsPercent(Checked(s).stats) >= StatsPercent(s.stats)
    ensures !Verdict(s.question, s.answer) ==> StatsPercent(Checked(s).stats) <= StatsPercent(s.stats)
  {
    var before, after := s.stats, Checked(s).stats;
    if Verdict(s.question, s.answer) {
      assert after == Stats(before.correct + 1, before.total + 1);
      RightKeepsPercent(before);
    } else {
      assert after == Stats(before.correct, before.total + 1);
      WrongKeepsPercent(before);
    }
  }
}
