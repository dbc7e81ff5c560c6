/**
 * The bounding-box engine: the axis-aligned box of a record or of an
 * arbitrarily nested list, and the anchor points read off a box.
 */
module BBoxes {
  import opened Coords
  import opened Shapes

  /** `[top_left_cs, bottom_right_cs]` in a y-up plane. */
  datatype Box = Box(topLeft: Point, bottomRight: Point)

  /** The corners are in the right order: left of and above one another. */
  predicate WellFormed(b: Box) {
    Ordered(b.topLeft, b.bottomRight)
  }

  /** `outer` is at least as far out as `inner` on each of the four sides. */
  predicate Encloses(outer: Box, inner: Box) {
    outer.topLeft.x <= inner.topLeft.x && outer.topLeft.y >= inner.topLeft.y &&
    outer.bottomRight.x >= inner.bottomRight.x && outer.bottomRight.y <= inner.bottomRight.y
  }

  function ShiftBox(b: Box, dx: real, dy: real): Box {
    Box(TranslateCoords(b.topLeft, dx, dy), TranslateCoords(b.bottomRight, dx, dy))
  }

  function Width(b: Box): real { b.bottomRight.x - b.topLeft.x }
  function Height(b: Box): real { b.topLeft.y - b.bottomRight.y }

  /**
   * Least box enclosing two boxes: leftmost left, highest top, rightmost
   * right, lowest bottom. Each side is one of the two boxes' sides.
   */
  function Join(a: Box, b: Box): (r: Box)
    ensures Encloses(r, a) && Encloses(r, b)
    ensures r.topLeft.x == a.topLeft.x || r.topLeft.x == b.topLeft.x
    ensures r.topLeft.y == a.topLeft.y || r.topLeft.y == b.topLeft.y
    ensures r.bottomRight.x == a.bottomRight.x || r.bottomRight.x == b.bottomRight.x
    ensures r.bottomRight.y == a.bottomRight.y || r.bottomRight.y == b.bottomRight.y
    ensures WellFormed(a) && WellFormed(b) ==> WellFormed(r)
  {
    Box(Point(Min(a.topLeft.x, b.topLeft.x), Max(a.topLeft.y, b.topLeft.y)),
        Point(Max(a.bottomRight.x, b.bottomRight.x), Min(a.bottomRight.y, b.bottomRight.y)))
  }

  /** Smallest box holding every point of a non-empty path. */
  function PathBox(ps: seq<Point>): (b: Box)
    requires |ps| > 0
    ensures WellFormed(b)
    ensures forall i :: 0 <= i < |ps| ==> AreCoordsInsideRectangle(ps[i], b.topLeft, b.bottomRight)
  {
    if |ps| == 1 then Box(ps[0], ps[0]) else Join(Box(ps[0], ps[0]), PathBox(ps[1..]))
  }

  /**
   * Box of a single record. Arcs are boxed as their full circle and Bézier
   * curves by their end points only; a text label contributes its anchor
   * point alone; an image extends `width` to the right and `height` down.
   */
  function ShapeBox(s: Shape): (r: Result<Box>)
    ensures r.Ok? <==> Measurable(Leaf(s))
    ensures r.Err? ==> r.error == (if s.Unrecognized? then NotImplementedFor(s.kind) else EmptyPointList)
  {
    match s
    case OpenPath(ps, _) => if |ps| == 0 then Err(EmptyPointList) else Ok(PathBox(ps))
    case ClosedPath(ps, _) => if |ps| == 0 then Err(EmptyPointList) else Ok(PathBox(ps))
    case Circle(c, r, _) => Ok(Box(Point(c.x - r, c.y + r), Point(c.x + r, c.y - r)))
    case CircularArc(c, r, _, _, _) => Ok(Box(Point(c.x - r, c.y + r), Point(c.x + r, c.y - r)))
    case Ellipse(c, rx, ry, _) => Ok(Box(Point(c.x - rx, c.y + ry), Point(c.x + rx, c.y - ry)))
    case Bezier(f, t, _, _, _) => Ok(Box(TopLeftCoords(f, t), BottomRightCoords(f, t)))
    case Latex(a, _, _) => Ok(Box(a, a))
    case Image(_, tl, h, w, _) => Ok(Box(tl, TranslateCoords(tl, w, -h)))
    case Unrecognized(k, _) => Err(NotImplementedFor(k))
  }

  /**
   * `bbox`: the box of a tree. A list's box joins its elements' boxes; the
   * first element whose box is undefined decides the error.
   */
  function BBox(n: Node): (r: Result<Box>)
    decreases n
    ensures r.Ok? <==> Measurable(n)
    ensures r.Ok? && NonNegativeSizes(n) ==> WellFormed(r.value)
    ensures n.Group? && |n.children| == 0 ==> r == Err(EmptyComposite)
  {
    match n
    case Leaf(s) => ShapeBox(s)
    case Group(cs) => if |cs| == 0 then Err(EmptyComposite) else BBoxAll(cs)
  }

  /** Joined box of a non-empty list of trees. */
  function BBoxAll(cs: seq<Node>): (r: Result<Box>)
    requires |cs| > 0
    decreases cs
    ensures r.Ok? <==> forall i :: 0 <= i < |cs| ==> Measurable(cs[i])
    ensures r.Ok? ==> forall i :: 0 <= i < |cs| ==> BBox(cs[i]).Ok? && Encloses(r.value, BBox(cs[i]).value)
    ensures r.Ok? && (forall i :: 0 <= i < |cs| ==> NonNegativeSizes(cs[i])) ==> WellFormed(r.value)
  {
    var first :- BBox(cs[0]);
    if |cs| == 1 then Ok(first)
    else
      var rest :- BBoxAll(cs[1..]);
      Ok(Join(first, rest))
  }

  /**
   * The box of a non-empty list is the component-wise extremum of its
   * elements' boxes: it encloses each of them, and each of its four sides is
   * the side of some element's box.
   */
  lemma {:induction false} BBoxAllExtremal(cs: seq<Node>)
    requires |cs| > 0 && BBoxAll(cs).Ok?
    ensures var b := BBoxAll(cs).value;
      && (forall i :: 0 <= i < |cs| ==> BBox(cs[i]).Ok? && Encloses(b, BBox(cs[i]).value))
      && (exists i :: 0 <= i < |cs| && BBox(cs[i]).Ok? && BBox(cs[i]).value.topLeft.x == b.topLeft.x)
      && (exists i :: 0 <= i < |cs| && BBox(cs[i]).Ok? && BBox(cs[i]).value.topLeft.y == b.topLeft.y)
      && (exists i :: 0 <= i < |cs| && BBox(cs[i]).Ok? && BBox(cs[i]).value.bottomRight.x == b.bottomRight.x)
      && (exists i :: 0 <= i < |cs| && BBox(cs[i]).Ok? && BBox(cs[i]).value.bottomRight.y == b.bottomRight.y)
  {
    var b := BBoxAll(cs).value;
    var first := BBox(cs[0]).value;
    if |cs| == 1 {
      assert b == first;
    } else {
      var tail := cs[1..];
      BBoxAllExtremal(tail);
      var rest := BBoxAll(tail).value;
      assert b == Join(first, rest);
      forall i | 0 <= i < |tail| ensures tail[i] == cs[i + 1] { }
      if b.topLeft.x != first.topLeft.x {
        var i :| 0 <= i < |tail| && BBox(tail[i]).Ok? && BBox(tail[i]).value.topLeft.x == rest.topLeft.x;
        assert BBox(cs[i + 1]).value.topLeft.x == b.topLeft.x;
      }
      if b.topLeft.y != first.topLeft.y {
        var i :| 0 <= i < |tail| && BBox(tail[i]).Ok? && BBox(tail[i]).value.topLeft.y == rest.topLeft.y;
        assert BBox(cs[i + 1]).value.topLeft.y == b.topLeft.y;
      }
      if b.bottomRight.x != first.bottomRight.x {
        var i :| 0 <= i < |tail| && BBox(tail[i]).Ok? && BBox(tail[i]).value.bottomRight.x == rest.bottomRight.x;
        assert BBox(cs[i + 1]).value.bottomRight.x == b.bottomRight.x;
      }
      if b.bottomRight.y != first.bottomRight.y {
        var i :| 0 <= i < |tail| && BBox(tail[i]).Ok? && BBox(tail[i]).value.bottomRight.y == rest.bottomRight.y;
        assert BBox(cs[i + 1]).value.bottomRight.y == b.bottomRight.y;
      }
    }
  }

  /**
   * The box of a path holds every point and touches the extreme point on
   * each side; the box of a text label is the single point at its anchor.
   */
  lemma {:induction false} PathBoxTight(ps: seq<Point>)
    requires |ps| > 0
    ensures var b := PathBox(ps);
      && (forall i :: 0 <= i < |ps| ==> AreCoordsInsideRectangle(ps[i], b.topLeft, b.bottomRight))
      && (exists i :: 0 <= i < |ps| && ps[i].x == b.topLeft.x)
      && (exists i :: 0 <= i < |ps| && ps[i].y == b.topLeft.y)
      && (exists i :: 0 <= i < |ps| && ps[i].x == b.bottomRight.x)
      && (exists i :: 0 <= i < |ps| && ps[i].y == b.bottomRight.y)
  {
    var b := PathBox(ps);
    if |ps| > 1 {
      var tail := ps[1..];
      PathBoxTight(tail);
      var rest := PathBox(tail);
      if b.topLeft.x != ps[0].x {
        var i :| 0 <= i < |tail| && tail[i].x == rest.topLeft.x;
        assert ps[i + 1].x == b.topLeft.x;
      }
      if b.topLeft.y != ps[0].y {
        var i :| 0 <= i < |tail| && tail[i].y == rest.topLeft.y;
        assert ps[i + 1].y == b.topLeft.y;
      }
      if b.bottomRight.x != ps[0].x {
        var i :| 0 <= i < |tail| && tail[i].x == rest.bottomRight.x;
        assert ps[i + 1].x == b.bottomRight.x;
      }
      if b.bottomRight.y != ps[0].y {
        var i :| 0 <= i < |tail| && tail[i].y == rest.bottomRight.y;
        assert ps[i + 1].y == b.bottomRight.y;
      }
    }
  }

  /**
   * What each record's box means: circles and arcs are boxed by a square of
   * side twice the radius around the centre, ellipses by the two radii, text
   * by its anchor point alone, images by their top-left corner and size.
   */
  lemma ShapeBoxGeometry(s: Shape)
    requires !s.Unrecognized? && !s.OpenPath? && !s.ClosedPath?
    ensures ShapeBox(s).Ok?
    ensures var b := ShapeBox(s).value;
      && ((s.Circle? || s.CircularArc?) ==>
            MidwayCoords(b.topLeft, b.bottomRight) == s.center && Width(b) == 2.0 * s.radius && Height(b) == 2.0 * s.radius)
      && (s.Ellipse? ==>
            MidwayCoords(b.topLeft, b.bottomRight) == s.center
            && Width(b) == 2.0 * s.horizontalRadius && Height(b) == 2.0 * s.verticalRadius)
      && (s.Latex? ==> b.topLeft == s.anchor && b.bottomRight == s.anchor)
      && (s.Image? ==> b.topLeft == s.topLeft && Width(b) == s.width && Height(b) == s.height)
      && (s.Bezier? ==> b == PathBox([s.from, s.to]))
  {
    if s.Bezier? {
      assert [s.from, s.to][1..] == [s.to];
    }
  }

  // ---------------------------------------------------------------------
  // Anchors

  /** The named reference points of a rectangle. */
  datatype Anchor =
    | TopLeft | TopRight | BottomLeft | BottomRight
    | TopCenter | BottomCenter | LeftCenter | RightCenter
    | Center

  /**
   * The helper `fn` in `coords_from_bbox_with_fn(e, fn)` applied to two
   * corners: `top_left_coords`, …, `bottom_center_coords`, or the midpoint
   * for the centre.
   */
  function AnchorCoords(a: Anchor, p: Point, q: Point): (r: Point)
    ensures AreCoordsInsideRectangle(r, TopLeftCoords(p, q), BottomRightCoords(p, q))
  {
    CornersNormalise(p, q);
    AnchorsInside(TopLeftCoords(p, q), BottomRightCoords(p, q));
    match a
    case TopLeft => TopLeftCoords(p, q)
    case TopRight => TopRightCoords(p, q)
    case BottomLeft => BottomLeftCoords(p, q)
    case BottomRight => BottomRightCoords(p, q)
    case TopCenter => TopCenterCoords(p, q)
    case BottomCenter => BottomCenterCoords(p, q)
    case LeftCenter => LeftCenterCoords(p, q)
    case RightCenter => RightCenterCoords(p, q)
    case Center => MidwayCoords(p, q)
  }

  /**
   * The anchor that `translate_bbox_<anchor>_to_coords` moves: the top-left
   * and bottom-right anchors are the box's own stored corners, the others
   * go through the helpers.
   */
  function BoxAnchor(a: Anchor, b: Box): (r: Point)
    ensures WellFormed(b) ==> r == AnchorCoords(a, b.topLeft, b.bottomRight)
  {
    match a
    case TopLeft => b.topLeft
    case BottomRight => b.bottomRight
    case _ => AnchorCoords(a, b.topLeft, b.bottomRight)
  }

  /** Moving a box moves each of its anchors by the same amount. */
  lemma AnchorsFollowShift(a: Anchor, b: Box, dx: real, dy: real)
    ensures BoxAnchor(a, ShiftBox(b, dx, dy)) == TranslateCoords(BoxAnchor(a, b), dx, dy)
    ensures AnchorCoords(a, ShiftBox(b, dx, dy).topLeft, ShiftBox(b, dx, dy).bottomRight)
         == TranslateCoords(AnchorCoords(a, b.topLeft, b.bottomRight), dx, dy)
  {
  }

  /** `center_coords`: the midpoint of the tree's box. */
  function CenterCoords(n: Node): (r: Result<Point>)
    ensures r.Ok? <==> Measurable(n)
    ensures r.Ok? ==> var b := BBox(n).value;
      r.value.x - b.topLeft.x == b.bottomRight.x - r.value.x && r.value.y - b.bottomRight.y == b.topLeft.y - r.value.y
  {
    var b :- BBox(n);
    Ok(MidwayCoords(b.topLeft, b.bottomRight))
  }

  /**
   * `coords_from_bbox_with_fn`: an anchor read off the tree's box through
   * the corner helpers; it always lies on or inside the box, whether or not
   * the stored corners are in order.
   */
  function CoordsFromBBox(n: Node, a: Anchor): (r: Result<Point>)
    ensures r.Ok? <==> Measurable(n)
    ensures r.Ok? ==> var b := BBox(n).value;
      AreCoordsInsideRectangle(r.value, TopLeftCoords(b.topLeft, b.bottomRight), BottomRightCoords(b.topLeft, b.bottomRight))
    ensures r.Ok? && WellFormed(BBox(n).value) ==> r.value == BoxAnchor(a, BBox(n).value)
  {
    var b :- BBox(n);
    Ok(AnchorCoords(a, b.topLeft, b.bottomRight))
  }
}
