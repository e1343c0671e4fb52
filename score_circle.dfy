/**
 * The circular score gauge (frontend/src/components/ScoreCircle.jsx): the score is
 * clamped to 0..100, the ring's dash offset leaves the clamped share of the
 * circumference drawn, and the centre shows the clamped score rounded.
 */
module ScoreCircle {
  import opened Wrappers

  /** `score = 0` as the default for a missing prop, then `Math.max(0, Math.min(100, score))`. */
  function SafeScore(score: Option<real>): (s: real)
    ensures 0.0 <= s <= 100.0
    ensures score.Some? && 0.0 <= score.value <= 100.0 ==> s == score.value
    ensures score.Some? && score.value > 100.0 ==> s == 100.0
    ensures score.Some? && score.value < 0.0 ==> s == 0.0
    ensures score.None? ==> s == 0.0
  {
    var v := score.GetOr(0.0);
    var upper := if v < 100.0 then v else 100.0;
    if upper > 0.0 then upper else 0.0
  }

  /** `circumference - (circumference * safeScore) / 100`. The circumference `2 * PI * 70`
      is a parameter because pi is not a rational number. */
  function DashOffset(circumference: real, score: Option<real>): (offset: real)
    requires circumference > 0.0
    ensures 0.0 <= offset <= circumference
    ensures SafeScore(score) == 100.0 ==> offset == 0.0
    ensures SafeScore(score) == 0.0 ==> offset == circumference
  {
    circumference - (circumference * SafeScore(score)) / 100.0
  }

  /** A higher score leaves less of the ring hidden. */
  lemma DashOffsetMonotone(circumference: real, lo: real, hi: real)
    requires circumference > 0.0 && lo <= hi
    ensures DashOffset(circumference, Some(hi)) <= DashOffset(circumference, Some(lo))
  {
    var a, b := SafeScore(Some(lo)), SafeScore(Some(hi));
    assert a <= b;
    assert circumference * b - circumference * a == circumference * (b - a);
    assert circumference * (b - a) >= 0.0;
  }

  /** `Math.round(safeScore)`: the nearest integer, halves rounded up. */
  function Label(score: Option<real>): (n: int)
    ensures 0 <= n <= 100
    ensures n as real - 0.5 <= SafeScore(score) < n as real + 0.5
  {
    (SafeScore(score) + 0.5).Floor
  }

  /** The label of an in-range whole score is that score. */
  lemma LabelOfWholeScore(n: int)
    requires 0 <= n <= 100
    ensures Label(Some(n as real)) == n
  {
  }
}
