/** The conservative verdict of `_evaluate_posture` (posture_analyzer.py:235-324):
    too few segments or any disqualifier means "incorrect"; otherwise
    seven criteria award points and at least 8 are needed. */
module Classifier {
  import opened Features

  const MinLines: nat := 5
  const PassMark: int := 8

  /** The five disqualifying conditions of posture_analyzer.py:256-273, any one of which rules "incorrect". */
  predicate Disqualified(f: Features)
  {
    || f.cShapeDetected
    || f.diagonalForwardRatio > 0.4
    || f.diagonalRatio > 0.5
    || f.verticalRatio < 0.15
    || f.middleDiagonalRatio > 0.5
  }

  // The seven scoring criteria of posture_analyzer.py:278-318, one function each.

  function VerticalPoints(f: Features): int
  {
    if f.verticalRatio > 0.35 then 4 else if f.verticalRatio > 0.25 then 2 else 0
  }

  function DiagonalPoints(f: Features): int
  {
    if f.diagonalRatio < 0.25 then 3 else if f.diagonalRatio < 0.35 then 1 else 0
  }

  function ForwardPoints(f: Features): int
  {
    if f.diagonalForwardRatio < 0.2 then 2 else 0
  }

  function RightAnglePoints(f: Features): int
  {
    if f.lineCount > 15 then
      if f.anglesNear90 >= 4 then 2 else if f.anglesNear90 >= 2 then 1 else 0
    else 0
  }

  /** Awarded when more than five shapes were found and most of them are straight. */
  function ShapePoints(f: Features): int
  {
    var total := f.curvedShapes + f.straightShapes;
    if total > 5 && (f.straightShapes as real) / (total as real) > 0.5 then 2 else 0
  }

  function MiddlePoints(f: Features): int
  {
    if f.middleDiagonalRatio < 0.3 then 2 else 0
  }

  /** +1 for a mean angle near 0 or 90 degrees, -2 for a mean tilt between 30 and 60 degrees. */
  function AveragePoints(f: Features): int
  {
    var avg := f.averageAngle;
    if avg > 0.0 then
      if avg < 25.0 || (65.0 < avg < 115.0) then 1
      else if 30.0 < avg < 60.0 then -2
      else 0
    else 0
  }

  /** The accumulated score; it can only fall below zero through the tilt penalty. */
  function Score(f: Features): (s: int)
    ensures -2 <= s <= 16
    ensures s < 0 ==> AveragePoints(f) == -2
  {
    VerticalPoints(f) + DiagonalPoints(f) + ForwardPoints(f) + RightAnglePoints(f)
    + ShapePoints(f) + MiddlePoints(f) + AveragePoints(f)
  }

  /** `_evaluate_posture`. */
  predicate Evaluate(f: Features)
  {
    if f.lineCount < MinLines then false
    else if Disqualified(f) then false
    else Score(f) >= PassMark
  }

  /** The verdict is "correct" exactly when there are enough segments, no
      disqualifier fires and the score reaches the pass mark. */
  lemma EvaluateCharacterised(f: Features)
    ensures Evaluate(f) <==> f.lineCount >= 5 && !Disqualified(f) && Score(f) >= 8
    ensures f.lineCount < 5 ==> !Evaluate(f)
    ensures Disqualified(f) ==> !Evaluate(f)
  {
  }

  /** How many of the seven criteria award points. */
  function CriteriaMet(f: Features): nat
  {
    (if VerticalPoints(f) > 0 then 1 else 0) + (if DiagonalPoints(f) > 0 then 1 else 0)
    + (if ForwardPoints(f) > 0 then 1 else 0) + (if RightAnglePoints(f) > 0 then 1 else 0)
    + (if ShapePoints(f) > 0 then 1 else 0) + (if MiddlePoints(f) > 0 then 1 else 0)
    + (if AveragePoints(f) > 0 then 1 else 0)
  }

  /** No two criteria together reach the pass mark: a "correct" verdict
      needs at least three independent signals to agree. */
  lemma CorrectNeedsThreeSignals(f: Features)
    ensures Evaluate(f) ==> CriteriaMet(f) >= 3
  {
  }

  /** The shape criterion never awards points to an extracted record,
      because `straight_shapes` is never incremented. */
  lemma ShapeBonusNeverFires(img: Image)
    requires WellFormed(img)
    ensures ShapePoints(Extract(img)) == 0
  {
    var f := Extract(img);
    ShapePointsNeedStraight(f);
  }

  /** Shape points are only ever awarded for straight shapes. */
  lemma ShapePointsNeedStraight(f: Features)
    ensures ShapePoints(f) > 0 ==> f.straightShapes > 0
  {
    var total := f.curvedShapes + f.straightShapes;
    if f.straightShapes == 0 && total > 5 {
      assert (f.straightShapes as real) / (total as real) == 0.0;
    }
  }

  /** A record that differs from `f` only in its vertical ratio. */
  function WithVertical(f: Features, v: real): Features
  {
    f.(verticalRatio := v)
  }

  /** More vertical segments never lower the score, for every pair of
      ratios and not only across the 0.25 and 0.35 band edges. */
  lemma ScoreMonotoneInVertical(f: Features, v1: real, v2: real)
    requires v1 <= v2
    ensures Score(WithVertical(f, v1)) <= Score(WithVertical(f, v2))
  {
  }

  /** More vertical segments never turn a "correct" verdict into "incorrect". */
  lemma VerdictMonotoneInVertical(f: Features, v1: real, v2: real)
    requires v1 <= v2
    ensures Evaluate(WithVertical(f, v1)) ==> Evaluate(WithVertical(f, v2))
  {
    ScoreMonotoneInVertical(f, v1, v2);
  }

  /** Fewer diagonal, forward-leaning or mid-body diagonal segments never
      turn a "correct" verdict into "incorrect". */
  lemma VerdictAntitoneInLean(f: Features, d: real, fwd: real, mid: real)
    requires d <= f.diagonalRatio && fwd <= f.diagonalForwardRatio && mid <= f.middleDiagonalRatio
    ensures Evaluate(f) ==> Evaluate(f.(diagonalRatio := d, diagonalForwardRatio := fwd, middleDiagonalRatio := mid))
  {
  }

  /** A straight posture with strong signals everywhere scores the full 16. */
  lemma UprightScenario(f: Features)
    requires f.lineCount == 20 && f.verticalRatio == 0.40 && f.diagonalRatio == 0.10
    requires f.diagonalForwardRatio == 0.05 && f.middleDiagonalRatio == 0.10
    requires f.anglesNear90 == 5 && f.curvedShapes == 1 && f.straightShapes == 6
    requires !f.cShapeDetected && f.averageAngle == 5.0
    ensures Score(f) == 16 && Evaluate(f)
  {
  }
}
