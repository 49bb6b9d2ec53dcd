/** The feature extractor of posture_analyzer.py:75-233. The OpenCV stages
    (grey conversion, blur, Canny, Hough, contour tracing, polygon
    approximation, hull, areas, mean intensity) are not modelled: their
    outputs form the `Image` record this module starts from, and the module
    models everything the source computes from them. */
module Features {
  import opened Common
  import opened Geometry

  /** One external contour as `findContours` traced it: its number of
      points, the vertex count of its `approxPolyDP` simplification, its
      area and the area of its convex hull. */
  datatype Contour = Contour(points: nat, vertices: nat, area: real, hullArea: real)

  /** What the OpenCV stages report about one decoded image: its size, the
      Canny edge mask (rows of pixels), the mean grey level, the Hough
      segments and the traced contours. */
  datatype Image = Image(
    width: nat,
    height: nat,
    edges: seq<seq<bool>>,
    brightness: real,
    segments: seq<Segment>,
    contours: seq<Contour>)

  /** Facts the decoder and OpenCV guarantee: a non-empty rectangular
      mask of the image's size, a grey mean on the 0..255 scale, `atan2`
      angles and non-negative areas. */
  predicate WellFormed(img: Image)
  {
    && img.width > 0
    && img.height > 0
    && |img.edges| == img.height
    && Rectangular(img.edges, img.width)
    && 0.0 <= img.brightness <= 255.0
    && (forall i :: 0 <= i < |img.segments| ==> ValidSegment(img.segments[i]))
    && (forall i :: 0 <= i < |img.contours| ==> img.contours[i].area >= 0.0 && img.contours[i].hullArea >= 0.0)
  }

  /** `height * width`, the number of pixels of the image. */
  function PixelCount(img: Image): nat
  {
    img.height * img.width
  }

  /** The analysis dictionary returned by `_analyze_posture_angles`. */
  datatype Features = Features(
    imageWidth: nat,
    imageHeight: nat,
    brightness: real,
    edgeDensity: real,
    lineCount: nat,
    verticalLines: nat,
    horizontalLines: nat,
    diagonalLines: nat,
    diagonalForwardLines: nat,
    verticalRatio: real,
    horizontalRatio: real,
    diagonalRatio: real,
    diagonalForwardRatio: real,
    rightAnglesDetected: nat,
    anglesNear90: nat,
    anglesNear0: nat,
    averageAngle: real,
    contourCount: nat,
    curvedShapes: nat,
    straightShapes: nat,
    cShapeDetected: bool,
    topDensity: real,
    middleDensity: real,
    bottomDensity: real,
    middleDiagonalRatio: real,
    aspectRatio: real)

  predicate InUnit(x: real) { 0.0 <= x <= 1.0 }

  /** The consistency every extracted record has: ratios and densities in
      [0, 1], the three orientation classes partitioning the segments (so
      their ratios sum to one, or are all zero without segments), forward
      lean inside the diagonal class, right angles inside the vertical
      class, and a C-shape only among curved contours. */
  predicate Consistent(f: Features)
  {
    && f.verticalLines + f.horizontalLines + f.diagonalLines == f.lineCount
    && f.diagonalForwardLines <= f.diagonalLines
    && f.rightAnglesDetected == f.anglesNear90 <= f.verticalLines
    && f.anglesNear0 == f.horizontalLines
    && InUnit(f.verticalRatio) && InUnit(f.horizontalRatio)
    && InUnit(f.diagonalRatio) && InUnit(f.diagonalForwardRatio)
    && f.diagonalForwardRatio <= f.diagonalRatio
    && (f.lineCount > 0 ==> f.verticalRatio + f.horizontalRatio + f.diagonalRatio == 1.0)
    && (f.lineCount == 0 ==>
          f.verticalRatio == 0.0 && f.horizontalRatio == 0.0
          && f.diagonalRatio == 0.0 && f.diagonalForwardRatio == 0.0)
    && 0.0 <= f.averageAngle <= 90.0
    && InUnit(f.edgeDensity)
    && InUnit(f.topDensity) && InUnit(f.middleDensity) && InUnit(f.bottomDensity)
    && InUnit(f.middleDiagonalRatio)
    && f.curvedShapes <= f.contourCount
    && (f.cShapeDetected ==> f.curvedShapes > 0)
  }

  /** `k / n if n > 0 else 0`, the guarded division used for every ratio and density. */
  function Ratio(k: nat, n: nat): (r: real)
    ensures k <= n ==> InUnit(r)
    ensures n == 0 ==> r == 0.0
    ensures n > 0 ==> r * (n as real) == k as real
  {
    if n > 0 then (k as real) / (n as real) else 0.0
  }

  /** Shares of a partition of `n` items add up to one. */
  lemma RatioSum(a: nat, b: nat, c: nat, n: nat)
    requires a + b + c == n
    ensures n > 0 ==> Ratio(a, n) + Ratio(b, n) + Ratio(c, n) == 1.0
  {
    if n > 0 {
      SharesOfWhole(Ratio(a, n), Ratio(b, n), Ratio(c, n), a as real, b as real, c as real, n as real);
    }
  }

  /** Three shares of a positive whole, each making up its part, sum to one. */
  lemma SharesOfWhole(x: real, y: real, z: real, a: real, b: real, c: real, m: real)
    requires m > 0.0 && a + b + c == m
    requires x * m == a && y * m == b && z * m == c
    ensures x + y + z == 1.0
  {
    assert (x + y + z - 1.0) * m == 0.0;
  }

  /** A smaller count never has a larger share of the same total. */
  lemma RatioMonotone(a: nat, b: nat, n: nat)
    requires a <= b
    ensures Ratio(a, n) <= Ratio(b, n)
  {
    if n > 0 {
      var m := n as real;
      assert (b as real) / m - (a as real) / m == ((b - a) as real) / m;
    }
  }

  // ---------------------------------------------------------------- segments

  predicate IsHorizontal(a: real) { Classify(a) == Horizontal }
  predicate IsVertical(a: real) { Classify(a) == Vertical }
  predicate IsDiagonal(a: real) { Classify(a).Diagonal? }
  predicate IsForward(a: real) { Classify(a) == Diagonal(true) }

  /** The normalised angle of every segment, in detection order. */
  function Angles(segs: seq<Segment>): (angles: seq<real>)
    ensures |angles| == |segs|
    ensures forall i :: 0 <= i < |segs| ==> angles[i] == Normalize(segs[i].rawAngle)
    ensures (forall i :: 0 <= i < |segs| ==> ValidSegment(segs[i])) ==>
      forall i :: 0 <= i < |angles| ==> -90.0 <= angles[i] <= 90.0
  {
    seq(|segs|, i requires 0 <= i < |segs| => Normalize(segs[i].rawAngle))
  }

  /** Every segment lands in exactly one of the three classes. */
  lemma {:induction false} ClassesPartition(angles: seq<real>)
    ensures Count(angles, IsHorizontal) + Count(angles, IsVertical) + Count(angles, IsDiagonal) == |angles|
  {
    if angles != [] {
      ClassesPartition(angles[1..]);
    }
  }

  /** Forward lean lies inside the diagonal class, near-right angles inside
      the vertical class, and near-flat angles are exactly the horizontal ones. */
  lemma ClassCountFacts(angles: seq<real>)
    ensures Count(angles, IsHorizontal) + Count(angles, IsVertical) + Count(angles, IsDiagonal) == |angles|
    ensures Count(angles, IsForward) <= Count(angles, IsDiagonal)
    ensures Count(angles, NearRight) <= Count(angles, IsVertical)
    ensures Count(angles, NearFlat) == Count(angles, IsHorizontal)
  {
    ClassesPartition(angles);
    CountMonotone(angles, IsForward, IsDiagonal);
    CountMonotone(angles, NearRight, IsVertical);
    CountMonotone(angles, NearFlat, IsHorizontal);
    CountMonotone(angles, IsHorizontal, NearFlat);
  }

  /** Sum of the absolute angles. */
  function SumAbs(angles: seq<real>): (t: real)
    ensures t >= 0.0
    ensures (forall i :: 0 <= i < |angles| ==> -90.0 <= angles[i] <= 90.0) ==> t <= 90.0 * (|angles| as real)
  {
    if angles == [] then 0.0
    else
      assert forall i :: 0 <= i < |angles| - 1 ==> angles[1..][i] == angles[i + 1];
      Abs(angles[0]) + SumAbs(angles[1..])
  }

  /** `c` added up `k` times: the sum of `k` copies of `c`. */
  function Repeat(c: real, k: nat): real
  {
    if k == 0 then 0.0 else c + Repeat(c, k - 1)
  }

  /** Adding up `k` copies of `c` is multiplying `c` by `k`. */
  lemma {:induction false} RepeatIsProduct(c: real, k: nat)
    ensures Repeat(c, k) == c * (k as real)
  {
    if k > 0 {
      RepeatIsProduct(c, k - 1);
      assert c * (k as real) == c + c * ((k - 1) as real);
    }
  }

  /** `k` copies of the quotient `t / k` add up to `t`. */
  lemma MeanRepeat(t: real, k: nat)
    requires k > 0
    ensures Repeat(t / (k as real), k) == t
  {
    var n := k as real;
    RepeatIsProduct(t / n, k);
    var q := t / n;
    assert q * n == t;
  }

  /** With `k` positive, `k` copies of a smaller value add up to less. */
  lemma {:induction false} RepeatMonotone(a: real, b: real, k: nat)
    requires k > 0 && a < b
    ensures Repeat(a, k) < Repeat(b, k)
  {
    if k > 1 {
      RepeatMonotone(a, b, k - 1);
    }
  }

  /** With `k` positive, comparing `k` copies of two values compares the values. */
  lemma RepeatCancel(lo: real, x: real, hi: real, k: nat)
    requires k > 0
    requires Repeat(lo, k) <= Repeat(x, k) <= Repeat(hi, k)
    ensures lo <= x <= hi
  {
    if x < lo {
      RepeatMonotone(x, lo, k);
    }
    if x > hi {
      RepeatMonotone(hi, x, k);
    }
  }

  /** `np.mean([abs(a) for a in angles]) if angles else 0`. */
  function AverageAbs(angles: seq<real>): (avg: real)
    requires forall i :: 0 <= i < |angles| ==> -90.0 <= angles[i] <= 90.0
    ensures 0.0 <= avg <= 90.0
    ensures angles == [] ==> avg == 0.0
    ensures angles != [] ==> Repeat(avg, |angles|) == SumAbs(angles)
  {
    if angles == [] then 0.0
    else
      var n := |angles| as real;
      var t := SumAbs(angles);
      QuotientBound(t, n, 90.0);
      MeanRepeat(t, |angles|);
      t / n
  }

  /** Bounds on every absolute angle bound their sum: it lies between `lo` and `hi` added once per angle. */
  lemma {:induction false} SumAbsBetween(angles: seq<real>, lo: real, hi: real)
    requires forall i :: 0 <= i < |angles| ==> lo <= Abs(angles[i]) <= hi
    ensures Repeat(lo, |angles|) <= SumAbs(angles) <= Repeat(hi, |angles|)
  {
    if angles != [] {
      var rest := angles[1..];
      assert forall i :: 0 <= i < |rest| ==> rest[i] == angles[i + 1];
      SumAbsBetween(rest, lo, hi);
    }
  }

  /** The mean lies within any bounds on every absolute angle, so between the smallest and the largest. */
  lemma AverageWithin(angles: seq<real>, lo: real, hi: real)
    requires forall i :: 0 <= i < |angles| ==> -90.0 <= angles[i] <= 90.0
    requires angles != []
    requires forall i :: 0 <= i < |angles| ==> lo <= Abs(angles[i]) <= hi
    ensures lo <= AverageAbs(angles) <= hi
  {
    SumAbsBetween(angles, lo, hi);
    RepeatCancel(lo, AverageAbs(angles), hi, |angles|);
  }

  /** A quotient by a positive divisor keeps the bounds of a numerator in [0, c * n]. */
  lemma QuotientBound(t: real, n: real, c: real)
    requires n > 0.0 && 0.0 <= t <= c * n
    ensures 0.0 <= t / n <= c
  {
    var q := t / n;
    assert q * n == t;
  }

  /** The per-class segment counts and the mean absolute angle. */
  datatype LineStats = LineStats(
    total: nat, vertical: nat, horizontal: nat, diagonal: nat, forward: nat,
    near90: nat, near0: nat, average: real)

  /** The segment loop of posture_analyzer.py:107-130 with the counts of 164-172. */
  function LineStatsOf(segs: seq<Segment>): (st: LineStats)
    requires forall i :: 0 <= i < |segs| ==> ValidSegment(segs[i])
    ensures st.total == |segs|
    ensures st.vertical + st.horizontal + st.diagonal == st.total
    ensures st.forward <= st.diagonal
    ensures st.near90 <= st.vertical
    ensures st.near0 == st.horizontal
    ensures 0.0 <= st.average <= 90.0
  {
    var angles := Angles(segs);
    ClassCountFacts(angles);
    assert forall i :: 0 <= i < |angles| ==> -90.0 <= angles[i] <= 90.0 by {
      forall i | 0 <= i < |angles| ensures -90.0 <= angles[i] <= 90.0 {
        assert ValidSegment(segs[i]);
      }
    }
    LineStats(
      total := |angles|,
      vertical := Count(angles, IsVertical),
      horizontal := Count(angles, IsHorizontal),
      diagonal := Count(angles, IsDiagonal),
      forward := Count(angles, IsForward),
      near90 := Count(angles, NearRight),
      near0 := Count(angles, NearFlat),
      average := AverageAbs(angles))
  }

  /** The tallies of `LineStatsOf` are the class counts of the normalised
      angles and their mean absolute value. */
  lemma LineStatsCounts(segs: seq<Segment>)
    requires forall i :: 0 <= i < |segs| ==> ValidSegment(segs[i])
    ensures var st, angles := LineStatsOf(segs), Angles(segs);
      && st.vertical == Count(angles, IsVertical)
      && st.horizontal == Count(angles, IsHorizontal)
      && st.diagonal == Count(angles, IsDiagonal)
      && st.forward == Count(angles, IsForward)
      && st.near90 == Count(angles, NearRight)
      && st.near0 == Count(angles, NearFlat)
      && st.average == AverageAbs(angles)
  {
  }

  /** The vertical, horizontal, diagonal and forward-lean shares of the segments. */
  datatype LineShares = LineShares(vertical: real, horizontal: real, diagonal: real, forward: real)

  /** The ratios of posture_analyzer.py:174-177: each class count over the
      segment count (zero without segments). The three orientation shares
      sum to one, and the forward share stays inside the diagonal one. */
  function SharesOf(st: LineStats): (r: LineShares)
    requires st.vertical + st.horizontal + st.diagonal == st.total
    requires st.forward <= st.diagonal
    ensures InUnit(r.vertical) && InUnit(r.horizontal) && InUnit(r.diagonal) && InUnit(r.forward)
    ensures r.forward <= r.diagonal
    ensures st.total > 0 ==> r.vertical + r.horizontal + r.diagonal == 1.0
    ensures st.total == 0 ==> r == LineShares(0.0, 0.0, 0.0, 0.0)
  {
    RatioMonotone(st.forward, st.diagonal, st.total);
    RatioSum(st.vertical, st.horizontal, st.diagonal, st.total);
    LineShares(
      Ratio(st.vertical, st.total), Ratio(st.horizontal, st.total),
      Ratio(st.diagonal, st.total), Ratio(st.forward, st.total))
  }

  // ------------------------------------------------------------- edge mask

  /** Edge pixels of one mask row. */
  function RowEdges(row: seq<bool>): nat
  {
    Count(row, b => b)
  }

  /** Every row of the mask has `width` pixels. */
  predicate Rectangular(rows: seq<seq<bool>>, width: nat)
  {
    forall r :: 0 <= r < |rows| ==> |rows[r]| == width
  }

  /** `np.sum(region > 0)`: edge pixels over a band of rows. */
  function EdgeCount(rows: seq<seq<bool>>): nat
  {
    if rows == [] then 0 else RowEdges(rows[0]) + EdgeCount(rows[1..])
  }

  /** A band holds no more edge pixels than pixels. */
  lemma {:induction false} EdgeCountBound(rows: seq<seq<bool>>, width: nat)
    requires Rectangular(rows, width)
    ensures EdgeCount(rows) <= |rows| * width
  {
    if rows != [] {
      assert forall r :: 0 <= r < |rows| - 1 ==> rows[1..][r] == rows[r + 1];
      EdgeCountBound(rows[1..], width);
      assert |rows| * width == width + (|rows| - 1) * width;
    }
  }

  /** Edge pixels of consecutive bands add up. */
  lemma {:induction false} EdgeCountConcat(a: seq<seq<bool>>, b: seq<seq<bool>>)
    ensures EdgeCount(a + b) == EdgeCount(a) + EdgeCount(b)
  {
    if a == [] {
      assert a + b == b;
    } else {
      assert (a + b)[1..] == a[1..] + b;
      EdgeCountConcat(a[1..], b);
    }
  }

  /** The band boundaries `height // 3` and `2 * height // 3`. */
  function BandCuts(height: nat): (cuts: (nat, nat))
    ensures cuts.0 <= cuts.1 <= height
    ensures cuts.0 == height / 3 && cuts.1 == (2 * height) / 3
  {
    (height / 3, (2 * height) / 3)
  }

  /** Every row lies in exactly one of the bands [0, h/3), [h/3, 2h/3), [2h/3, h). */
  lemma BandsPartitionRows(height: nat, row: nat)
    requires row < height
    ensures var (a, b) := BandCuts(height);
      (if row < a then 1 else 0) + (if a <= row < b then 1 else 0) + (if b <= row then 1 else 0) == 1
  {
  }

  /** The three bands together hold exactly the edge pixels of the whole mask. */
  lemma BandsPartitionEdges(edges: seq<seq<bool>>)
    ensures var (a, b) := BandCuts(|edges|);
      EdgeCount(edges[..a]) + EdgeCount(edges[a..b]) + EdgeCount(edges[b..]) == EdgeCount(edges)
  {
    var (a, b) := BandCuts(|edges|);
    EdgeCountSplit(edges, a, b);
  }

  /** Cutting a mask at two rows splits its edge pixels over the three pieces. */
  lemma EdgeCountSplit(edges: seq<seq<bool>>, a: nat, b: nat)
    requires a <= b <= |edges|
    ensures EdgeCount(edges[..a]) + EdgeCount(edges[a..b]) + EdgeCount(edges[b..]) == EdgeCount(edges)
  {
    ThreePieces(edges, a, b);
    EdgeCountConcat(edges[..a], edges[a..b]);
    EdgeCountConcat(edges[..b], edges[b..]);
  }

  /** Edge density of a band: edge pixels over band pixels, 0 for an empty band. */
  function BandDensity(rows: seq<seq<bool>>, width: nat): (d: real)
    requires Rectangular(rows, width)
    ensures InUnit(d)
    ensures |rows| * width > 0 ==> d == (EdgeCount(rows) as real) / ((|rows| * width) as real)
    ensures |rows| * width == 0 ==> d == 0.0
  {
    EdgeCountBound(rows, width);
    Ratio(EdgeCount(rows), |rows| * width)
  }

  /** The edge densities of the top, middle and bottom bands. */
  datatype BandDensities = BandDensities(top: real, middle: real, bottom: real)

  /** The three band densities of posture_analyzer.py:179-185: the mask cut at
      `height // 3` and `2 * height // 3`, each band's density as above. */
  function Bands(edges: seq<seq<bool>>, width: nat): (d: BandDensities)
    requires Rectangular(edges, width)
    ensures InUnit(d.top) && InUnit(d.middle) && InUnit(d.bottom)
    ensures var (a, b) := BandCuts(|edges|);
      && d.top == BandDensity(edges[..a], width)
      && d.middle == BandDensity(edges[a..b], width)
      && d.bottom == BandDensity(edges[b..], width)
  {
    var (a, b) := BandCuts(|edges|);
    BandDensities(BandDensity(edges[..a], width), BandDensity(edges[a..b], width), BandDensity(edges[b..], width))
  }

  // ------------------------------------------------------------ middle band

  /** The segment's vertical midpoint lies strictly inside the middle band (posture_analyzer.py:193-194). */
  predicate InMiddle(s: Segment, height: nat)
  {
    var (a, b) := BandCuts(height);
    var midY := ((s.y1 + s.y2) as real) / 2.0;
    (a as real) < midY < (b as real)
  }

  predicate MiddleDiagonal(s: Segment, height: nat)
  {
    InMiddle(s, height) && IsDiagonalAngle(Normalize(s.rawAngle))
  }

  /** `middle_lines`: the segments whose midpoint lies inside the middle band. */
  function MiddleCount(segs: seq<Segment>, height: nat): nat
  {
    if segs == [] then 0
    else (if InMiddle(segs[0], height) then 1 else 0) + MiddleCount(segs[1..], height)
  }

  /** `middle_diagonal`: the middle-band segments that are diagonal; never more than `middle_lines`. */
  function MiddleDiagonalCount(segs: seq<Segment>, height: nat): (c: nat)
    ensures c <= MiddleCount(segs, height)
  {
    if segs == [] then 0
    else (if MiddleDiagonal(segs[0], height) then 1 else 0) + MiddleDiagonalCount(segs[1..], height)
  }

  /** `middle_diagonal / middle_lines if middle_lines > 0 else 0`. */
  function MiddleDiagonalRatio(segs: seq<Segment>, height: nat): (r: real)
    ensures InUnit(r)
    ensures MiddleCount(segs, height) > 0 ==>
      r == (MiddleDiagonalCount(segs, height) as real) / (MiddleCount(segs, height) as real)
    ensures MiddleCount(segs, height) == 0 ==> r == 0.0
  {
    Ratio(MiddleDiagonalCount(segs, height), MiddleCount(segs, height))
  }

  // --------------------------------------------------------------- contours

  /** Contours with more than ten points that simplify to fewer than eight vertices. */
  predicate Curved(c: Contour)
  {
    c.points > 10 && c.vertices < 8
  }

  /** A curved contour covering more than 1% of the image whose solidity (area over hull area) is below 0.7. */
  predicate CShape(c: Contour, imageArea: real)
  {
    Curved(c) && c.area > imageArea * 0.01 && c.hullArea > 0.0 && c.area / c.hullArea < 0.7
  }

  // ------------------------------------------------------------- extractor

  /** `_analyze_posture_angles` applied to what OpenCV reported. `straight_shapes`
      stays 0 because the source never increments it. */
  function Extract(img: Image): (f: Features)
    requires WellFormed(img)
    ensures Consistent(f)
    ensures f.lineCount == |img.segments| && f.contourCount == |img.contours|
    ensures f.imageWidth == img.width && f.imageHeight == img.height
    ensures f.brightness == img.brightness
    ensures f.straightShapes == 0
    ensures f.cShapeDetected <==>
      exists i :: 0 <= i < |img.contours| && CShape(img.contours[i], PixelCount(img) as real)
  {
    var st := LineStatsOf(img.segments);
    var n := st.total;
    var shares := SharesOf(st);
    var bands := Bands(img.edges, img.width);
    EdgeCountBound(img.edges, img.width);
    var imageArea := PixelCount(img) as real;
    var curved := Count(img.contours, Curved);
    var cShape := exists i :: 0 <= i < |img.contours| && CShape(img.contours[i], imageArea);
    assert cShape ==> curved > 0;
    Features(
      imageWidth := img.width,
      imageHeight := img.height,
      brightness := img.brightness,
      edgeDensity := Ratio(EdgeCount(img.edges), PixelCount(img)),
      lineCount := n,
      verticalLines := st.vertical,
      horizontalLines := st.horizontal,
      diagonalLines := st.diagonal,
      diagonalForwardLines := st.forward,
      verticalRatio := shares.vertical,
      horizontalRatio := shares.horizontal,
      diagonalRatio := shares.diagonal,
      diagonalForwardRatio := shares.forward,
      rightAnglesDetected := st.near90,
      anglesNear90 := st.near90,
      anglesNear0 := st.near0,
      averageAngle := st.average,
      contourCount := |img.contours|,
      curvedShapes := curved,
      straightShapes := 0,
      cShapeDetected := cShape,
      topDensity := bands.top,
      middleDensity := bands.middle,
      bottomDensity := bands.bottom,
      middleDiagonalRatio := MiddleDiagonalRatio(img.segments, img.height),
      aspectRatio := (img.width as real) / (img.height as real))
  }

  /** The class counts and the mean angle of an extracted record are those of
      the classification of the segments' normalised angles. */
  lemma ExtractCounts(img: Image)
    requires WellFormed(img)
    ensures var f, angles := Extract(img), Angles(img.segments);
      && f.verticalLines == Count(angles, IsVertical)
      && f.horizontalLines == Count(angles, IsHorizontal)
      && f.diagonalLines == Count(angles, IsDiagonal)
      && f.diagonalForwardLines == Count(angles, IsForward)
      && f.anglesNear90 == Count(angles, NearRight)
      && f.anglesNear0 == Count(angles, NearFlat)
      && f.averageAngle == AverageAbs(angles)
  {
    LineStatsCounts(img.segments);
  }

  /** Each ratio of an extracted record is its class count over the segment
      count, and the edge density is edge pixels over image pixels. */
  lemma ExtractRatios(img: Image)
    requires WellFormed(img)
    ensures var f := Extract(img);
      && f.verticalRatio == Ratio(f.verticalLines, f.lineCount)
      && f.horizontalRatio == Ratio(f.horizontalLines, f.lineCount)
      && f.diagonalRatio == Ratio(f.diagonalLines, f.lineCount)
      && f.diagonalForwardRatio == Ratio(f.diagonalForwardLines, f.lineCount)
      && f.edgeDensity == Ratio(EdgeCount(img.edges), PixelCount(img))
  {
  }

  /** The band densities of an extracted record are those of the three bands
      of the edge mask, and its middle-band ratio is that of its segments. */
  lemma ExtractBands(img: Image)
    requires WellFormed(img)
    ensures var f, d := Extract(img), Bands(img.edges, img.width);
      && f.topDensity == d.top
      && f.middleDensity == d.middle
      && f.bottomDensity == d.bottom
      && f.middleDiagonalRatio == MiddleDiagonalRatio(img.segments, img.height)
  {
  }
}
