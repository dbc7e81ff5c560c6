/**
 * The rectangle-shaped primitives built from corners, sizes and ratios,
 * and the ellipse built from a width-over-height ratio. The plain record
 * constructors (`open_path`, `closed_path`, `circle`, `circular_arc`,
 * `ellipse`, `bezier`, `latex`, `image`) are the variants of `Shape`
 * themselves.
 */
module Primitives {
  import opened Coords
  import opened Shapes
  import opened BBoxes

  /** The ratio used by `rectangle_with_golden_ratio`, as the engine writes it (a decimal approximation). */
  const GoldenRatio: real := 1.61803398875

  /**
   * `rectangle(top_left, bottom_right)`: a closed path through the four
   * corners of the axis-aligned rectangle the two points span, clockwise
   * from `tl` when the points are ordered.
   */
  function Rectangle(tl: Point, br: Point, style: string): (r: Shape)
    ensures r.ClosedPath? && r.style == style && |r.points| == 4
    ensures r.points[0] == tl && r.points[2] == br
    ensures r.points[1] == TopRightCoords(tl, br) && r.points[3] == BottomLeftCoords(tl, br)
    ensures Ordered(tl, br) ==> r.points[1] == Point(br.x, tl.y) && r.points[3] == Point(tl.x, br.y)
  {
    ClosedPath([tl, TopRightCoords(tl, br), br, BottomLeftCoords(tl, br)], style)
  }

  /**
   * The box of a rectangle is spanned by the normalised corners, whatever
   * the order of the two points given; for ordered points it is exactly
   * `(tl, br)`.
   */
  lemma RectangleBox(tl: Point, br: Point, style: string)
    ensures ShapeBox(Rectangle(tl, br, style)) == Ok(Box(TopLeftCoords(tl, br), BottomRightCoords(tl, br)))
    ensures Ordered(tl, br) ==> ShapeBox(Rectangle(tl, br, style)) == Ok(Box(tl, br))
  {
    var tr, bl := TopRightCoords(tl, br), BottomLeftCoords(tl, br);
    var ps := Rectangle(tl, br, style).points;
    assert ps[1..][1..][1..] == [bl];
    assert ps[1..][1..] == [br, bl];
    assert ps[1..] == [tr, br, bl];
    assert PathBox([bl]) == Box(bl, bl);
    assert PathBox([br, bl]) == Join(Box(br, br), Box(bl, bl));
    assert PathBox([tr, br, bl]) == Join(Box(tr, tr), PathBox([br, bl]));
  }

  /** `square(top_left, side)`: the rectangle from `tl` to the point `side` to the right and `side` below. */
  function Square(tl: Point, side: real, style: string): (r: Shape)
    ensures r.ClosedPath? && |r.points| == 4 && r.points[0] == tl
  {
    Rectangle(tl, Point(tl.x + side, tl.y - side), style)
  }

  /** A square's box is as wide as it is tall, both the side's absolute value; for a non-negative side it starts at `tl`. */
  lemma SquareBox(tl: Point, side: real, style: string)
    ensures ShapeBox(Square(tl, side, style)).Ok?
    ensures var b := ShapeBox(Square(tl, side, style)).value;
      && Width(b) == Abs(side) && Height(b) == Abs(side)
      && (side >= 0.0 ==> b.topLeft == tl)
  {
    RectangleBox(tl, Point(tl.x + side, tl.y - side), style);
  }

  /** `rectangle_from_width_and_height(top_left, height, width)`: the rectangle from `tl` to `width` right and `height` down. */
  function RectangleFromWidthAndHeight(tl: Point, height: real, width: real, style: string): (r: Shape)
    ensures r.ClosedPath? && |r.points| == 4 && r.points[0] == tl
  {
    Rectangle(tl, TranslateCoords(tl, width, -height), style)
  }

  /** The box of `RectangleFromWidthAndHeight` has the absolute width and height; for non-negative sizes it starts at `tl`. */
  lemma RectangleFromWidthAndHeightBox(tl: Point, height: real, width: real, style: string)
    ensures ShapeBox(RectangleFromWidthAndHeight(tl, height, width, style)).Ok?
    ensures var b := ShapeBox(RectangleFromWidthAndHeight(tl, height, width, style)).value;
      && Width(b) == Abs(width) && Height(b) == Abs(height)
      && (width >= 0.0 && height >= 0.0 ==> b.topLeft == tl)
  {
    RectangleBox(tl, TranslateCoords(tl, width, -height), style);
  }

  /** `rectangle_from_width_over_height(top_left, height, ratio)`: a rectangle `height` tall and `ratio * height` wide. */
  function RectangleFromWidthOverHeight(tl: Point, height: real, ratio: real, style: string): (r: Shape)
    ensures r.ClosedPath? && |r.points| == 4 && r.points[0] == tl
  {
    RectangleFromWidthAndHeight(tl, height, ratio * height, style)
  }

  /**
   * The box is as tall as the height's absolute value and as wide as the
   * absolute value of `ratio * height`; for a non-negative height and ratio
   * it starts at `tl` and its width over its height is the ratio.
   */
  lemma RectangleFromWidthOverHeightBox(tl: Point, height: real, ratio: real, style: string)
    ensures ShapeBox(RectangleFromWidthOverHeight(tl, height, ratio, style)).Ok?
    ensures var b := ShapeBox(RectangleFromWidthOverHeight(tl, height, ratio, style)).value;
      && Height(b) == Abs(height) && Width(b) == Abs(ratio * height)
      && (height >= 0.0 && ratio >= 0.0 ==> Width(b) == ratio * height && b.topLeft == tl)
  {
    var w := ratio * height;
    if height >= 0.0 && ratio >= 0.0 {
      NonNegativeProduct(ratio, height);
    }
    assert RectangleFromWidthOverHeight(tl, height, ratio, style) == RectangleFromWidthAndHeight(tl, height, w, style);
    RectangleFromWidthAndHeightBox(tl, height, w, style);
  }

  /** `rectangle_with_golden_ratio(top_left, height)`: a rectangle whose width over height is the golden ratio. */
  function RectangleWithGoldenRatio(tl: Point, height: real, style: string): (r: Shape)
    ensures r.ClosedPath? && |r.points| == 4 && r.points[0] == tl
  {
    RectangleFromWidthOverHeight(tl, height, GoldenRatio, style)
  }

  /** Whatever the sign of the height, the box's width over its height is the golden ratio. */
  lemma RectangleWithGoldenRatioBox(tl: Point, height: real, style: string)
    ensures ShapeBox(RectangleWithGoldenRatio(tl, height, style)).Ok?
    ensures var b := ShapeBox(RectangleWithGoldenRatio(tl, height, style)).value;
      && Height(b) == Abs(height) && Width(b) == GoldenRatio * Abs(height)
      && (height >= 0.0 ==> b.topLeft == tl)
  {
    RectangleFromWidthOverHeightBox(tl, height, GoldenRatio, style);
  }

  /**
   * `rectangle_from_additive_resizing(top_left, bottom_right, delta_x,
   * delta_y)`: the rectangle grown by `delta_x` in width and `delta_y` in
   * height, half on each side.
   */
  function RectangleFromAdditiveResizing(tl: Point, br: Point, dx: real, dy: real, style: string): (r: Shape)
    ensures r.ClosedPath?
  {
    var t := TranslateCoords(tl, -dx / 2.0, dy / 2.0);
    var b := TranslateCoords(br, dx / 2.0, -dy / 2.0);
    Rectangle(t, b, style)
  }

  /**
   * When the grown rectangle is still ordered, its box is wider by `dx`,
   * taller by `dy` and has the same centre as the original rectangle.
   */
  lemma AdditiveResizingBox(tl: Point, br: Point, dx: real, dy: real, style: string)
    requires br.x - tl.x + dx >= 0.0 && tl.y - br.y + dy >= 0.0
    ensures ShapeBox(RectangleFromAdditiveResizing(tl, br, dx, dy, style)).Ok?
    ensures var b := ShapeBox(RectangleFromAdditiveResizing(tl, br, dx, dy, style)).value;
      && Width(b) == (br.x - tl.x) + dx && Height(b) == (tl.y - br.y) + dy
      && MidwayCoords(b.topLeft, b.bottomRight) == MidwayCoords(tl, br)
  {
    var t := TranslateCoords(tl, -dx / 2.0, dy / 2.0);
    var b := TranslateCoords(br, dx / 2.0, -dy / 2.0);
    RectangleBox(t, b, style);
  }

  /**
   * `rectangle_from_multiplicative_resizing(top_left, bottom_right,
   * alpha_x, alpha_y)`: each corner's offset from the centre scaled by
   * `alpha_x` horizontally and `alpha_y` vertically.
   */
  function RectangleFromMultiplicativeResizing(tl: Point, br: Point, ax: real, ay: real, style: string): (r: Shape)
    ensures r.ClosedPath?
  {
    var c := MidwayCoords(tl, br);
    Rectangle(ResizeAbout(c, tl, ax, ay), ResizeAbout(c, br, ax, ay), style)
  }

  /** `p` with its offset from `c` scaled by `ax` horizontally and `ay` vertically. */
  function ResizeAbout(c: Point, p: Point, ax: real, ay: real): Point {
    Point(c.x + ax * (p.x - c.x), c.y + ay * (p.y - c.y))
  }

  /**
   * One axis of a multiplicative resizing: the interval `[lo, hi]` with
   * both ends' offsets from its midpoint scaled by `alpha` stays ordered,
   * is `alpha` times as long and keeps its midpoint.
   */
  lemma ResizeInterval(lo: real, hi: real, alpha: real)
    requires lo <= hi && alpha >= 0.0
    ensures var c := (lo + hi) / 2.0;
      var lo', hi' := c + alpha * (lo - c), c + alpha * (hi - c);
      && lo' <= hi' && hi' - lo' == alpha * (hi - lo) && (lo' + hi') / 2.0 == c
  {
    var c := (lo + hi) / 2.0;
    var h := (hi - lo) / 2.0;
    assert lo - c == -h && hi - c == h && h >= 0.0;
    assert alpha * (lo - c) == -(alpha * h);
    assert alpha * (hi - c) == alpha * h;
    assert alpha * h >= 0.0;
    assert alpha * (hi - lo) == 2.0 * (alpha * h);
  }

  /**
   * For an ordered rectangle and non-negative factors, the resized box is
   * `alpha_x` times as wide, `alpha_y` times as tall and has the same centre.
   */
  lemma MultiplicativeResizingBox(tl: Point, br: Point, ax: real, ay: real, style: string)
    requires Ordered(tl, br) && ax >= 0.0 && ay >= 0.0
    ensures ShapeBox(RectangleFromMultiplicativeResizing(tl, br, ax, ay, style)).Ok?
    ensures var b := ShapeBox(RectangleFromMultiplicativeResizing(tl, br, ax, ay, style)).value;
      && Width(b) == ax * (br.x - tl.x) && Height(b) == ay * (tl.y - br.y)
      && MidwayCoords(b.topLeft, b.bottomRight) == MidwayCoords(tl, br)
  {
    var c := MidwayCoords(tl, br);
    var t := ResizeAbout(c, tl, ax, ay);
    var b := ResizeAbout(c, br, ax, ay);
    ResizeCorners(tl, br, ax, ay);
    RectangleBox(t, b, style);
    assert RectangleFromMultiplicativeResizing(tl, br, ax, ay, style) == Rectangle(t, b, style);
  }

  /** Both axes of a multiplicative resizing of an ordered rectangle at once. */
  lemma ResizeCorners(tl: Point, br: Point, ax: real, ay: real)
    requires Ordered(tl, br) && ax >= 0.0 && ay >= 0.0
    ensures var c := MidwayCoords(tl, br);
      var t, b := ResizeAbout(c, tl, ax, ay), ResizeAbout(c, br, ax, ay);
      && Ordered(t, b) && b.x - t.x == ax * (br.x - tl.x) && t.y - b.y == ay * (tl.y - br.y)
      && MidwayCoords(t, b) == c
  {
    var c := MidwayCoords(tl, br);
    var t := ResizeAbout(c, tl, ax, ay);
    var b := ResizeAbout(c, br, ax, ay);
    var cx, cy := (tl.x + br.x) / 2.0, (br.y + tl.y) / 2.0;
    assert c.x == cx && c.y == cy;
    assert t.x == cx + ax * (tl.x - cx) && b.x == cx + ax * (br.x - cx);
    assert b.y == cy + ay * (br.y - cy) && t.y == cy + ay * (tl.y - cy);
    ResizeInterval(tl.x, br.x, ax);
    ResizeInterval(br.y, tl.y, ay);
  }

  /** `ellipse_from_width_over_height(center, vertical_radius, ratio)`: an ellipse whose horizontal radius is `ratio` times the vertical one. */
  function EllipseFromWidthOverHeight(c: Point, verticalRadius: real, ratio: real, style: string): (r: Shape)
    ensures r.Ellipse? && r.center == c && r.verticalRadius == verticalRadius
  {
    Ellipse(c, verticalRadius * ratio, verticalRadius, style)
  }

  /** The ellipse's box is centred on `c` and its width is `ratio` times its height. */
  lemma EllipseFromWidthOverHeightBox(c: Point, verticalRadius: real, ratio: real, style: string)
    ensures ShapeBox(EllipseFromWidthOverHeight(c, verticalRadius, ratio, style)).Ok?
    ensures var b := ShapeBox(EllipseFromWidthOverHeight(c, verticalRadius, ratio, style)).value;
      && Height(b) == 2.0 * verticalRadius && Width(b) == ratio * Height(b)
      && MidwayCoords(b.topLeft, b.bottomRight) == c
  {
    var rx := verticalRadius * ratio;
    assert ratio * (2.0 * verticalRadius) == 2.0 * rx;
  }
}
