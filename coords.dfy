/**
 * Coordinate algebra of the layout engine: points in a y-up plane (units are
 * centimetres), the corner and edge-centre helpers that normalise two
 * opposite corners of a rectangle, convex combinations, axis translations,
 * vector deltas and reflections. Nothing here uses trigonometry, so every
 * identity below holds exactly over the reals.
 */
module Coords {

  /** A point `[x, y]`. */
  datatype Point = Point(x: real, y: real)

  /** A vector `[start_cs, end_cs]`: an ordered pair of points. */
  datatype Vector = Vector(start: Point, end: Point)

  function Min(a: real, b: real): real { if a <= b then a else b }
  function Max(a: real, b: real): real { if a >= b then a else b }

  // ---------------------------------------------------------------------
  // Midpoints and convex combinations

  /** The point halfway between `p` and `q`. */
  function MidwayCoords(p: Point, q: Point): (m: Point)
    ensures m.x - p.x == q.x - m.x && m.y - p.y == q.y - m.y
  {
    Point(p.x / 2.0 + q.x / 2.0, p.y / 2.0 + q.y / 2.0)
  }

  /** The point at one third of the way from `p` to `q`. */
  function OneThirdCoords(p: Point, q: Point): (m: Point)
    ensures 2.0 * (m.x - p.x) == q.x - m.x && 2.0 * (m.y - p.y) == q.y - m.y
  {
    Point(2.0 * p.x / 3.0 + q.x / 3.0, 2.0 * p.y / 3.0 + q.y / 3.0)
  }

  /** The point at two thirds of the way from `p` to `q`. */
  function TwoThirdsCoords(p: Point, q: Point): (m: Point)
    ensures m.x - p.x == 2.0 * (q.x - m.x) && m.y - p.y == 2.0 * (q.y - m.y)
  {
    Point(p.x / 3.0 + 2.0 * q.x / 3.0, p.y / 3.0 + 2.0 * q.y / 3.0)
  }

  /**
   * `(1 - alpha) * from + alpha * to`; alpha outside [0, 1] extrapolates
   * along the same line.
   */
  function ConvexCombinationCoords(from: Point, to: Point, alpha: real): (r: Point)
    ensures alpha == 0.0 ==> r == from
    ensures alpha == 1.0 ==> r == to
    ensures r.x - from.x == alpha * (to.x - from.x)
    ensures r.y - from.y == alpha * (to.y - from.y)
  {
    Point((1.0 - alpha) * from.x + alpha * to.x, (1.0 - alpha) * from.y + alpha * to.y)
  }

  /** The midpoint does not depend on the order of its arguments. */
  lemma MidwaySymmetric(p: Point, q: Point)
    ensures MidwayCoords(p, q) == MidwayCoords(q, p)
  {
  }

  /** Midpoint and thirds are the convex combinations at 1/2, 1/3 and 2/3. */
  lemma FractionsAreConvexCombinations(p: Point, q: Point)
    ensures MidwayCoords(p, q) == ConvexCombinationCoords(p, q, 0.5)
    ensures OneThirdCoords(p, q) == ConvexCombinationCoords(p, q, 1.0 / 3.0)
    ensures TwoThirdsCoords(p, q) == ConvexCombinationCoords(p, q, 2.0 / 3.0)
  {
  }

  /** A convex combination with alpha in [0, 1] stays between the two points on each axis. */
  lemma ConvexCombinationBetween(from: Point, to: Point, alpha: real)
    requires 0.0 <= alpha <= 1.0
    ensures Min(from.x, to.x) <= ConvexCombinationCoords(from, to, alpha).x <= Max(from.x, to.x)
    ensures Min(from.y, to.y) <= ConvexCombinationCoords(from, to, alpha).y <= Max(from.y, to.y)
  {
    var r := ConvexCombinationCoords(from, to, alpha);
    assert r.x == from.x + alpha * (to.x - from.x);
    assert r.y == from.y + alpha * (to.y - from.y);
    FractionBetween(alpha, to.x - from.x);
    FractionBetween(alpha, to.y - from.y);
  }

  /** A fraction alpha in [0, 1] of a signed length lies between zero and that length. */
  lemma FractionBetween(alpha: real, d: real)
    requires 0.0 <= alpha <= 1.0
    ensures Min(0.0, d) <= alpha * d <= Max(0.0, d)
  {
    var beta := 1.0 - alpha;
    assert d - alpha * d == beta * d;
    if d >= 0.0 {
      NonNegativeProduct(alpha, d);
      NonNegativeProduct(beta, d);
    } else {
      NonNegativeProduct(alpha, -d);
      NonNegativeProduct(beta, -d);
    }
  }

  lemma NonNegativeProduct(a: real, b: real)
    requires a >= 0.0 && b >= 0.0
    ensures a * b >= 0.0
  {
  }

  // ---------------------------------------------------------------------
  // Corner and edge-centre helpers. Each takes any two opposite corners of an
  // axis-aligned rectangle, in either order.

  function TopLeftCoords(p: Point, q: Point): (r: Point)
    ensures r.x <= p.x && r.x <= q.x && (r.x == p.x || r.x == q.x)
    ensures r.y >= p.y && r.y >= q.y && (r.y == p.y || r.y == q.y)
  {
    Point(Min(p.x, q.x), Max(p.y, q.y))
  }

  function TopRightCoords(p: Point, q: Point): (r: Point)
    ensures r.x >= p.x && r.x >= q.x && (r.x == p.x || r.x == q.x)
    ensures r.y >= p.y && r.y >= q.y && (r.y == p.y || r.y == q.y)
  {
    Point(Max(p.x, q.x), Max(p.y, q.y))
  }

  function BottomLeftCoords(p: Point, q: Point): (r: Point)
    ensures r.x <= p.x && r.x <= q.x && (r.x == p.x || r.x == q.x)
    ensures r.y <= p.y && r.y <= q.y && (r.y == p.y || r.y == q.y)
  {
    Point(Min(p.x, q.x), Min(p.y, q.y))
  }

  function BottomRightCoords(p: Point, q: Point): (r: Point)
    ensures r.x >= p.x && r.x >= q.x && (r.x == p.x || r.x == q.x)
    ensures r.y <= p.y && r.y <= q.y && (r.y == p.y || r.y == q.y)
  {
    Point(Max(p.x, q.x), Min(p.y, q.y))
  }

  /** Midpoint of the left edge: leftmost x, halfway up. */
  function LeftCenterCoords(p: Point, q: Point): (r: Point)
    ensures r.x == TopLeftCoords(p, q).x
    ensures r.y - BottomLeftCoords(p, q).y == TopLeftCoords(p, q).y - r.y
  {
    MidwayCoords(TopLeftCoords(p, q), BottomLeftCoords(p, q))
  }

  /** Midpoint of the right edge: rightmost x, halfway up. */
  function RightCenterCoords(p: Point, q: Point): (r: Point)
    ensures r.x == TopRightCoords(p, q).x
    ensures r.y - BottomRightCoords(p, q).y == TopRightCoords(p, q).y - r.y
  {
    MidwayCoords(TopRightCoords(p, q), BottomRightCoords(p, q))
  }

  /** Midpoint of the top edge: topmost y, halfway across. */
  function TopCenterCoords(p: Point, q: Point): (r: Point)
    ensures r.y == TopLeftCoords(p, q).y
    ensures r.x - TopLeftCoords(p, q).x == TopRightCoords(p, q).x - r.x
  {
    MidwayCoords(TopLeftCoords(p, q), TopRightCoords(p, q))
  }

  /** Midpoint of the bottom edge: bottommost y, halfway across. */
  function BottomCenterCoords(p: Point, q: Point): (r: Point)
    ensures r.y == BottomLeftCoords(p, q).y
    ensures r.x - BottomLeftCoords(p, q).x == BottomRightCoords(p, q).x - r.x
  {
    MidwayCoords(BottomLeftCoords(p, q), BottomRightCoords(p, q))
  }

  /** Whether `tl` is really the top-left corner of the rectangle it spans with `br`. */
  predicate Ordered(tl: Point, br: Point) {
    tl.x <= br.x && br.y <= tl.y
  }

  /** Normalising two corners gives an ordered pair, and normalising again changes nothing. */
  lemma CornersNormalise(p: Point, q: Point)
    ensures Ordered(TopLeftCoords(p, q), BottomRightCoords(p, q))
    ensures TopLeftCoords(TopLeftCoords(p, q), BottomRightCoords(p, q)) == TopLeftCoords(p, q)
    ensures BottomRightCoords(TopLeftCoords(p, q), BottomRightCoords(p, q)) == BottomRightCoords(p, q)
    ensures TopLeftCoords(p, q) == TopLeftCoords(q, p) && BottomRightCoords(p, q) == BottomRightCoords(q, p)
  {
  }

  /** For an ordered pair the helpers return the given corners themselves. */
  lemma OrderedCorners(tl: Point, br: Point)
    requires Ordered(tl, br)
    ensures TopLeftCoords(tl, br) == tl && BottomRightCoords(tl, br) == br
    ensures TopRightCoords(tl, br) == Point(br.x, tl.y)
    ensures BottomLeftCoords(tl, br) == Point(tl.x, br.y)
  {
  }

  // ---------------------------------------------------------------------
  // Translations

  function TranslateCoords(p: Point, dx: real, dy: real): (r: Point)
    ensures r.x - p.x == dx && r.y - p.y == dy
  {
    Point(p.x + dx, p.y + dy)
  }

  function TranslateCoordsHorizontally(p: Point, delta: real): (r: Point)
    ensures r == TranslateCoords(p, delta, 0.0)
  {
    Point(p.x + delta, p.y)
  }

  function TranslateCoordsVertically(p: Point, delta: real): (r: Point)
    ensures r == TranslateCoords(p, 0.0, delta)
  {
    Point(p.x, p.y + delta)
  }

  function TranslateCoordsDiagonally(p: Point, delta: real): (r: Point)
    ensures r == TranslateCoords(p, delta, delta)
  {
    Point(p.x + delta, p.y + delta)
  }

  function TranslateCoordsAntidiagonally(p: Point, delta: real): (r: Point)
    ensures r == TranslateCoords(p, delta, -delta)
  {
    Point(p.x + delta, p.y - delta)
  }

  /** Translating twice is translating once by the summed deltas; translating back undoes it. */
  lemma TranslateCoordsCompose(p: Point, dx1: real, dy1: real, dx2: real, dy2: real)
    ensures TranslateCoords(TranslateCoords(p, dx1, dy1), dx2, dy2) == TranslateCoords(p, dx1 + dx2, dy1 + dy2)
    ensures TranslateCoords(TranslateCoords(p, dx1, dy1), -dx1, -dy1) == p
  {
  }

  // ---------------------------------------------------------------------
  // Vectors

  /** `vector_to_deltax` and `x_difference`: the horizontal component of a vector. */
  function DeltaX(v: Vector): (r: real)
    ensures TranslateCoordsHorizontally(v.start, r).x == v.end.x
  {
    v.end.x - v.start.x
  }

  /** `vector_to_deltay` and `y_difference`: the vertical component of a vector. */
  function DeltaY(v: Vector): (r: real)
    ensures TranslateCoordsVertically(v.start, r).y == v.end.y
  {
    v.end.y - v.start.y
  }

  /** `vector_to_deltas`: the displacement that carries the start onto the end. */
  function Deltas(v: Vector): (d: (real, real))
    ensures TranslateCoords(v.start, d.0, d.1) == v.end
  {
    (DeltaX(v), DeltaY(v))
  }

  /** The deltas of a translation are the translation's own arguments. */
  lemma DeltasOfTranslation(p: Point, dx: real, dy: real)
    ensures Deltas(Vector(p, TranslateCoords(p, dx, dy))) == (dx, dy)
  {
  }

  function Abs(a: real): real { if a < 0.0 then -a else a }

  /** Horizontal extent of a vector, whichever way it points. */
  function XLength(v: Vector): (r: real)
    ensures r >= 0.0 && (r == DeltaX(v) || r == -DeltaX(v))
  {
    Abs(DeltaX(v))
  }

  /** Vertical extent of a vector, whichever way it points. */
  function YLength(v: Vector): (r: real)
    ensures r >= 0.0 && (r == DeltaY(v) || r == -DeltaY(v))
  {
    Abs(DeltaY(v))
  }

  /** The extents do not depend on the direction of the vector. */
  lemma LengthsSymmetric(v: Vector)
    ensures XLength(v) == XLength(Vector(v.end, v.start))
    ensures YLength(v) == YLength(Vector(v.end, v.start))
  {
  }

  // ---------------------------------------------------------------------
  // Reflections about an axis-parallel line

  /** Mirror image across the vertical line `x == axisX`. */
  function ReflectCoordsHorizontally(p: Point, axisX: real): (r: Point)
    ensures r.y == p.y && r.x - axisX == axisX - p.x
  {
    Point(-(p.x - axisX) + axisX, p.y)
  }

  /** Mirror image across the horizontal line `y == axisY`. */
  function ReflectCoordsVertically(p: Point, axisY: real): (r: Point)
    ensures r.x == p.x && r.y - axisY == axisY - p.y
  {
    Point(p.x, -(p.y - axisY) + axisY)
  }

  /** Both ends mirrored: heights kept, the axis halfway between each end and its image. */
  function ReflectVectorHorizontally(v: Vector, axisX: real): (r: Vector)
    ensures r.start.y == v.start.y && r.start.x - axisX == axisX - v.start.x
    ensures r.end.y == v.end.y && r.end.x - axisX == axisX - v.end.x
  {
    Vector(ReflectCoordsHorizontally(v.start, axisX), ReflectCoordsHorizontally(v.end, axisX))
  }

  /** Both ends mirrored: abscissae kept, the axis halfway between each end and its image. */
  function ReflectVectorVertically(v: Vector, axisY: real): (r: Vector)
    ensures r.start.x == v.start.x && r.start.y - axisY == axisY - v.start.y
    ensures r.end.x == v.end.x && r.end.y - axisY == axisY - v.end.y
  {
    Vector(ReflectCoordsVertically(v.start, axisY), ReflectCoordsVertically(v.end, axisY))
  }

  /** Reflecting twice about the same axis is the identity; reflection reverses the deltas along its axis. */
  lemma ReflectionInvolution(v: Vector, axisX: real, axisY: real)
    ensures ReflectVectorHorizontally(ReflectVectorHorizontally(v, axisX), axisX) == v
    ensures ReflectVectorVertically(ReflectVectorVertically(v, axisY), axisY) == v
    ensures DeltaX(ReflectVectorHorizontally(v, axisX)) == -DeltaX(v)
    ensures DeltaY(ReflectVectorHorizontally(v, axisX)) == DeltaY(v)
    ensures DeltaY(ReflectVectorVertically(v, axisY)) == -DeltaY(v)
    ensures DeltaX(ReflectVectorVertically(v, axisY)) == DeltaX(v)
  {
  }

  // ---------------------------------------------------------------------
  // Points relative to a rectangle given by its top-left and bottom-right corners

  /**
   * Inclusive containment test; false for every point when the corners are
   * not ordered. A point is inside exactly when the corners are ordered and
   * joining the point to them moves neither corner outward.
   */
  predicate AreCoordsInsideRectangle(p: Point, tl: Point, br: Point): (r: bool)
    ensures r <==> Ordered(tl, br) && TopLeftCoords(tl, p) == tl && BottomRightCoords(br, p) == br
  {
    tl.x <= p.x && p.x <= br.x && br.y <= p.y && p.y <= tl.y
  }

  lemma InsideOnlyWhenOrdered(p: Point, tl: Point, br: Point)
    requires AreCoordsInsideRectangle(p, tl, br)
    ensures Ordered(tl, br)
  {
  }

  /** Point at fraction `alpha` along the top edge, from the top-left to the top-right corner. */
  function CoordsOnTopEdge(tl: Point, br: Point, alpha: real): (r: Point)
    ensures Ordered(tl, br) ==> r == Point(tl.x + alpha * (br.x - tl.x), tl.y)
    ensures alpha == 0.0 ==> r == tl
    ensures alpha == 1.0 ==> r == TopRightCoords(tl, br)
  {
    ConvexCombinationCoords(tl, TopRightCoords(tl, br), alpha)
  }

  /** Point at fraction `alpha` along the bottom edge, from the bottom-left to the bottom-right corner. */
  function CoordsOnBottomEdge(tl: Point, br: Point, alpha: real): (r: Point)
    ensures Ordered(tl, br) ==> r == Point(tl.x + alpha * (br.x - tl.x), br.y)
    ensures alpha == 0.0 ==> r == BottomLeftCoords(tl, br)
    ensures alpha == 1.0 ==> r == br
  {
    ConvexCombinationCoords(BottomLeftCoords(tl, br), br, alpha)
  }

  /** Point at fraction `alpha` up the left edge, from the bottom-left to the top-left corner. */
  function CoordsOnLeftEdge(tl: Point, br: Point, alpha: real): (r: Point)
    ensures Ordered(tl, br) ==> r == Point(tl.x, br.y + alpha * (tl.y - br.y))
    ensures alpha == 0.0 ==> r == BottomLeftCoords(tl, br)
    ensures alpha == 1.0 ==> r == tl
  {
    ConvexCombinationCoords(BottomLeftCoords(tl, br), tl, alpha)
  }

  /** Point at fraction `alpha` up the right edge, from the bottom-right to the top-right corner. */
  function CoordsOnRightEdge(tl: Point, br: Point, alpha: real): (r: Point)
    ensures Ordered(tl, br) ==> r == Point(br.x, br.y + alpha * (tl.y - br.y))
    ensures alpha == 0.0 ==> r == br
    ensures alpha == 1.0 ==> r == TopRightCoords(tl, br)
  {
    ConvexCombinationCoords(br, TopRightCoords(tl, br), alpha)
  }

  /** On an ordered rectangle, every edge point with alpha in [0, 1] lies inside the rectangle. */
  lemma EdgeCoordsInside(tl: Point, br: Point, alpha: real)
    requires Ordered(tl, br) && 0.0 <= alpha <= 1.0
    ensures AreCoordsInsideRectangle(CoordsOnTopEdge(tl, br, alpha), tl, br)
    ensures AreCoordsInsideRectangle(CoordsOnBottomEdge(tl, br, alpha), tl, br)
    ensures AreCoordsInsideRectangle(CoordsOnLeftEdge(tl, br, alpha), tl, br)
    ensures AreCoordsInsideRectangle(CoordsOnRightEdge(tl, br, alpha), tl, br)
  {
    ConvexCombinationBetween(tl, TopRightCoords(tl, br), alpha);
    ConvexCombinationBetween(BottomLeftCoords(tl, br), br, alpha);
    ConvexCombinationBetween(BottomLeftCoords(tl, br), tl, alpha);
    ConvexCombinationBetween(br, TopRightCoords(tl, br), alpha);
  }

  /** On an ordered rectangle, the corners and edge centres all lie inside it. */
  lemma AnchorsInside(tl: Point, br: Point)
    requires Ordered(tl, br)
    ensures AreCoordsInsideRectangle(TopLeftCoords(tl, br), tl, br)
    ensures AreCoordsInsideRectangle(TopRightCoords(tl, br), tl, br)
    ensures AreCoordsInsideRectangle(BottomLeftCoords(tl, br), tl, br)
    ensures AreCoordsInsideRectangle(BottomRightCoords(tl, br), tl, br)
    ensures AreCoordsInsideRectangle(LeftCenterCoords(tl, br), tl, br)
    ensures AreCoordsInsideRectangle(RightCenterCoords(tl, br), tl, br)
    ensures AreCoordsInsideRectangle(TopCenterCoords(tl, br), tl, br)
    ensures AreCoordsInsideRectangle(BottomCenterCoords(tl, br), tl, br)
    ensures AreCoordsInsideRectangle(MidwayCoords(tl, br), tl, br)
  {
  }
}
