/** Integer bounding boxes and their intersection-over-union overlap.

    The detector reports real-valued corner coordinates; the pipeline truncates
    them to integers before tracking (detector.py:176), so every box the
    tracker sees has integer corners. Nothing forces x1 < x2 or y1 < y2: the
    area of any box is floored at 1, which is what keeps the union positive. */
module Geometry {

  datatype Box = Box(x1: int, y1: int, x2: int, y2: int)

  function Max(a: int, b: int): int { if a >= b then a else b }
  function Min(a: int, b: int): int { if a <= b then a else b }

  /** Python's `int()` on a float: truncation toward zero. */
  function Trunc(x: real): (r: int)
    ensures 0.0 <= x ==> 0 <= r && r as real <= x < r as real + 1.0
    ensures x < 0.0 ==> r <= 0 && r as real - 1.0 < x <= r as real
  {
    if x >= 0.0 then x.Floor else -((-x).Floor)
  }

  /** The corners of a detection, each truncated toward zero. */
  function TruncBox(x1: real, y1: real, x2: real, y2: real): (b: Box)
    ensures 0.0 <= x1 && 0.0 <= y1 && 0.0 <= x2 && 0.0 <= y2 ==>
              b.x1 == x1.Floor && b.y1 == y1.Floor && b.x2 == x2.Floor && b.y2 == y2.Floor
  {
    Box(Trunc(x1), Trunc(y1), Trunc(x2), Trunc(y2))
  }

  function Width(b: Box): int { b.x2 - b.x1 }
  function Height(b: Box): int { b.y2 - b.y1 }

  /** A box with strictly positive width and height. */
  predicate Proper(b: Box) { Width(b) > 0 && Height(b) > 0 }

  /** The signed product of the sides, floored at 1. */
  function Area(b: Box): (r: int)
    ensures r >= 1
    ensures Proper(b) ==> r == Width(b) * Height(b)
  {
    Max(1, Width(b) * Height(b))
  }

  function InterWidth(a: Box, b: Box): nat { Max(0, Min(a.x2, b.x2) - Max(a.x1, b.x1)) }
  function InterHeight(a: Box, b: Box): nat { Max(0, Min(a.y2, b.y2) - Max(a.y1, b.y1)) }

  /** The area of the overlap rectangle, zero when the boxes do not overlap. */
  function Inter(a: Box, b: Box): (r: nat)
    ensures r <= Area(a) && r <= Area(b)
  {
    InterBelowArea(a, b);
    InterBelowArea(b, a);
    InterWidth(a, b) * InterHeight(a, b)
  }

  lemma MulMono(x: int, y: int, xMax: int, yMax: int)
    requires 0 <= x <= xMax && 0 <= y <= yMax
    ensures x * y <= xMax * yMax
  {
    assert x * y <= xMax * y;
    assert xMax * y <= xMax * yMax;
  }

  /** The overlap never exceeds the (floored) area of the first box. */
  lemma InterBelowArea(a: Box, b: Box)
    ensures InterWidth(a, b) * InterHeight(a, b) <= Area(a)
  {
    var iw, ih := InterWidth(a, b), InterHeight(a, b);
    if iw == 0 || ih == 0 {
      assert iw * ih == 0;
    } else {
      assert 0 < iw <= Width(a);
      assert 0 < ih <= Height(a);
      MulMono(iw, ih, Width(a), Height(a));
    }
  }

  /** The union of two boxes' areas, counting the overlap once. */
  function Union(a: Box, b: Box): (r: int)
    ensures r >= 1
    ensures r >= Inter(a, b)
  {
    Area(a) + Area(b) - Inter(a, b)
  }

  /** Intersection over union as an exact ratio; the `else` branch of the
      source is kept although the union is never zero. */
  function Iou(a: Box, b: Box): (r: real)
    ensures 0.0 <= r <= 1.0
  {
    var u := Union(a, b);
    if u > 0 then RatioUnit(Inter(a, b) as real, u as real); Inter(a, b) as real / u as real else 0.0
  }

  lemma RatioUnit(n: real, d: real)
    requires 0.0 <= n <= d && d > 0.0
    ensures 0.0 <= n / d <= 1.0
  {
    assert n / d * d == n;
  }

  /** Overlap does not depend on the order of the two boxes. */
  lemma IouSymmetric(a: Box, b: Box)
    ensures Iou(a, b) == Iou(b, a)
  {
    assert InterWidth(a, b) == InterWidth(b, a);
    assert InterHeight(a, b) == InterHeight(b, a);
  }

  /** A proper box overlaps itself completely. */
  lemma IouSelf(b: Box)
    requires Proper(b)
    ensures Iou(b, b) == 1.0
  {
    assert InterWidth(b, b) == Width(b);
    assert InterHeight(b, b) == Height(b);
    MulMono(1, 1, Width(b), Height(b));
    assert Inter(b, b) == Area(b);
  }

  /** A degenerate box (no positive extent in some direction) overlaps nothing,
      not even itself. */
  lemma IouDegenerate(a: Box, b: Box)
    requires !Proper(a)
    ensures Iou(a, b) == 0.0
  {
    assert InterWidth(a, b) == 0 || InterHeight(a, b) == 0;
  }
}
