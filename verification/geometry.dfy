/** Orientation of one detected line segment: normalising the `atan2` angle
    into half a turn and sorting the segment into exactly one of three
    classes (posture_analyzer.py:108-130 and 196-202). */
module Geometry {

  function Abs(x: real): (r: real)
    ensures r >= 0.0 && (r == x || r == -x)
  {
    if x < 0.0 then -x else x
  }

  /** One segment reported by the probabilistic Hough transform, with its
      end points and the angle `degrees(atan2(y2 - y1, x2 - x1))` already
      evaluated (the floating-point trigonometry is not modelled). */
  datatype Segment = Segment(x1: int, y1: int, x2: int, y2: int, rawAngle: real)

  /** `atan2` in degrees never leaves [-180, 180]. */
  predicate ValidSegment(s: Segment)
  {
    -180.0 <= s.rawAngle <= 180.0
  }

  /** Folds an angle from [-180, 180] into [-90, 90] by adding or subtracting half a turn (posture_analyzer.py:113-116). */
  function Normalize(a: real): (n: real)
    ensures n == a || n == a - 180.0 || n == a + 180.0
    ensures -180.0 <= a <= 180.0 ==> -90.0 <= n <= 90.0
    ensures -90.0 <= a <= 90.0 ==> n == a
  {
    if a > 90.0 then a - 180.0
    else if a < -90.0 then a + 180.0
    else a
  }

  /** The three orientation classes; a diagonal segment may also be flagged as leaning forward. */
  datatype LineClass = Horizontal | Vertical | Diagonal(forward: bool)

  /** The branch structure of posture_analyzer.py:120-130, including the
      bands above 90 degrees that a normalised angle can never reach. */
  function Classify(angle: real): (c: LineClass)
    ensures -90.0 <= angle <= 90.0 ==>
      && (c == Horizontal <==> Abs(angle) < 20.0)
      && (c == Vertical <==> Abs(angle) > 70.0)
      && (c.Diagonal? <==> 20.0 <= Abs(angle) <= 70.0)
      && (c == Diagonal(true) <==> 20.0 < Abs(angle) < 70.0)
  {
    var a := Abs(angle);
    if a < 20.0 || a > 160.0 then Horizontal
    else if 70.0 < a < 110.0 then Vertical
    else Diagonal((20.0 < a < 70.0) || (110.0 < a < 160.0))
  }

  /** The separate "neither vertical nor horizontal" test used for the middle band (posture_analyzer.py:201). */
  predicate IsDiagonalAngle(angle: real)
    ensures IsDiagonalAngle(angle) <==> Classify(angle).Diagonal?
  {
    !(70.0 < Abs(angle) < 110.0) && !(Abs(angle) < 20.0 || Abs(angle) > 160.0)
  }

  /** Close to a right angle: counted as `angles_near_90` and `right_angles_detected`. */
  predicate NearRight(angle: real)
    ensures NearRight(angle) ==> Classify(angle) == Vertical
  {
    80.0 < Abs(angle) < 100.0
  }

  /** Close to flat: counted as `angles_near_0`. */
  predicate NearFlat(angle: real)
    ensures NearFlat(angle) <==> Classify(angle) == Horizontal
  {
    Abs(angle) < 20.0 || Abs(angle) > 160.0
  }
}
