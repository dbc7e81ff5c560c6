/**
 * Translation and scaling of a shape tree. The engine rewrites the records'
 * coordinate fields in place; here each operation returns the rewritten tree.
 */
module Transform {
  import opened Coords
  import opened Shapes
  import opened BBoxes

  // ---------------------------------------------------------------------
  // translate

  function TranslateShape(s: Shape, dx: real, dy: real): (r: Result<Shape>)
    ensures r.Ok? <==> Movable(Leaf(s))
    ensures r.Err? ==> r.error == NotImplementedFor(Kind(s))
  {
    match s
    case OpenPath(ps, st) => Ok(OpenPath(ShiftPoints(ps, dx, dy), st))
    case ClosedPath(ps, st) => Ok(ClosedPath(ShiftPoints(ps, dx, dy), st))
    case Circle(c, r, st) => Ok(Circle(TranslateCoords(c, dx, dy), r, st))
    case Ellipse(c, rx, ry, st) => Ok(Ellipse(TranslateCoords(c, dx, dy), rx, ry, st))
    case Bezier(f, t, c1, c2, st) =>
      Ok(Bezier(TranslateCoords(f, dx, dy), TranslateCoords(t, dx, dy),
                TranslateCoords(c1, dx, dy), TranslateCoords(c2, dx, dy), st))
    case Latex(a, e, st) => Ok(Latex(TranslateCoords(a, dx, dy), e, st))
    case Image(f, tl, h, w, st) => Ok(Image(f, TranslateCoords(tl, dx, dy), h, w, st))
    case CircularArc(_, _, _, _, _) => Err(NotImplementedFor("circular_arc"))
    case Unrecognized(k, _) => Err(NotImplementedFor(k))
  }

  /**
   * `translate(e, delta_x, delta_y)`: moves every coordinate of every record
   * by `(dx, dy)`. It fails on an empty list and on a record it has no case
   * for (a circular arc among them); the first failing element of a list
   * decides the error.
   */
  function Translate(n: Node, dx: real, dy: real): (r: Result<Node>)
    decreases n
    ensures r.Ok? <==> Movable(n)
  {
    match n
    case Leaf(s) =>
      var s' :- TranslateShape(s, dx, dy);
      Ok(Leaf(s'))
    case Group(cs) =>
      if |cs| == 0 then Err(EmptyComposite)
      else
        var cs' :- TranslateAll(cs, dx, dy);
        Ok(Group(cs'))
  }

  function TranslateAll(cs: seq<Node>, dx: real, dy: real): (r: Result<seq<Node>>)
    decreases cs
    ensures r.Ok? <==> forall i :: 0 <= i < |cs| ==> Movable(cs[i])
    ensures r.Ok? ==> |r.value| == |cs| && forall i :: 0 <= i < |cs| ==> Translate(cs[i], dx, dy) == Ok(r.value[i])
  {
    if |cs| == 0 then Ok([])
    else
      var first :- Translate(cs[0], dx, dy);
      var rest :- TranslateAll(cs[1..], dx, dy);
      Ok([first] + rest)
  }

  /**
   * A successful translation adds `(dx, dy)` to every coordinate and leaves
   * everything else as it was: variants, radii, sizes, text, file paths,
   * style strings, list lengths and nesting.
   */
  lemma {:induction false} TranslateMovesEveryPoint(n: Node, dx: real, dy: real)
    requires Translate(n, dx, dy).Ok?
    ensures MovedBy(n, Translate(n, dx, dy).value, dx, dy)
    decreases n
  {
    var m := Translate(n, dx, dy).value;
    match n
    case Leaf(s) =>
    case Group(cs) =>
      var ms := m.children;
      forall i | 0 <= i < |cs| ensures MovedBy(cs[i], ms[i], dx, dy) {
        TranslateMovesEveryPoint(cs[i], dx, dy);
      }
      assert Erase(m) == Erase(n);
      PointsAllShift(cs, ms, dx, dy);
  }

  /** A translated tree can be translated again. */
  lemma {:induction false} TranslateStaysMovable(n: Node, dx: real, dy: real)
    requires Translate(n, dx, dy).Ok?
    ensures Movable(Translate(n, dx, dy).value)
    decreases n
  {
    match n
    case Leaf(s) =>
    case Group(cs) =>
      var ms := Translate(n, dx, dy).value.children;
      forall i | 0 <= i < |ms| ensures Movable(ms[i]) {
        TranslateStaysMovable(cs[i], dx, dy);
      }
  }

  lemma {:induction false} PointsAllShift(cs: seq<Node>, ms: seq<Node>, dx: real, dy: real)
    requires |ms| == |cs|
    requires forall i :: 0 <= i < |cs| ==> Points(ms[i]) == ShiftPoints(Points(cs[i]), dx, dy)
    ensures PointsAll(ms) == ShiftPoints(PointsAll(cs), dx, dy)
  {
    if |cs| > 0 {
      PointsAllShift(cs[1..], ms[1..], dx, dy);
      ShiftPointsAppend(Points(cs[0]), PointsAll(cs[1..]), dx, dy);
    }
  }

  /** After a successful translation the box is the old box moved by `(dx, dy)`. */
  lemma {:induction false} TranslateShiftsBBox(n: Node, dx: real, dy: real)
    requires Translate(n, dx, dy).Ok? && BBox(n).Ok?
    ensures BBox(Translate(n, dx, dy).value) == Ok(ShiftBox(BBox(n).value, dx, dy))
    decreases n
  {
    match n
    case Leaf(s) =>
      match s {
      case OpenPath(ps, _) => PathBoxShift(ps, dx, dy);
      case ClosedPath(ps, _) => PathBoxShift(ps, dx, dy);
      case _ =>
      }
    case Group(cs) =>
      var ms := Translate(n, dx, dy).value.children;
      forall i | 0 <= i < |cs| ensures BBox(ms[i]) == Ok(ShiftBox(BBox(cs[i]).value, dx, dy)) {
        TranslateShiftsBBox(cs[i], dx, dy);
      }
      BBoxAllShift(cs, ms, dx, dy);
  }

  lemma {:induction false} PathBoxShift(ps: seq<Point>, dx: real, dy: real)
    requires |ps| > 0
    ensures PathBox(ShiftPoints(ps, dx, dy)) == ShiftBox(PathBox(ps), dx, dy)
  {
    if |ps| > 1 {
      PathBoxShift(ps[1..], dx, dy);
      assert ShiftPoints(ps, dx, dy)[1..] == ShiftPoints(ps[1..], dx, dy);
    }
  }

  lemma {:induction false} BBoxAllShift(cs: seq<Node>, ms: seq<Node>, dx: real, dy: real)
    requires |cs| > 0 && |ms| == |cs|
    requires forall i :: 0 <= i < |cs| ==> BBox(cs[i]).Ok? && BBox(ms[i]) == Ok(ShiftBox(BBox(cs[i]).value, dx, dy))
    ensures BBoxAll(cs).Ok? && BBoxAll(ms) == Ok(ShiftBox(BBoxAll(cs).value, dx, dy))
  {
    if |cs| > 1 {
      BBoxAllShift(cs[1..], ms[1..], dx, dy);
      var a, b := BBox(cs[0]).value, BBoxAll(cs[1..]).value;
      assert BBoxAll(cs) == Ok(Join(a, b));
      assert BBoxAll(ms) == Ok(Join(ShiftBox(a, dx, dy), ShiftBox(b, dx, dy)));
      JoinShift(a, b, dx, dy);
    }
  }

  lemma JoinShift(a: Box, b: Box, dx: real, dy: real)
    ensures Join(ShiftBox(a, dx, dy), ShiftBox(b, dx, dy)) == ShiftBox(Join(a, b), dx, dy)
  {
  }

  /** Translating twice is translating once by the summed deltas. */
  lemma {:induction false} TranslateCompose(n: Node, dx1: real, dy1: real, dx2: real, dy2: real)
    requires Translate(n, dx1, dy1).Ok?
    ensures Translate(Translate(n, dx1, dy1).value, dx2, dy2) == Translate(n, dx1 + dx2, dy1 + dy2)
    decreases n
  {
    match n
    case Leaf(s) =>
      match s {
      case OpenPath(ps, _) =>
        assert ShiftPoints(ShiftPoints(ps, dx1, dy1), dx2, dy2) == ShiftPoints(ps, dx1 + dx2, dy1 + dy2);
      case ClosedPath(ps, _) =>
        assert ShiftPoints(ShiftPoints(ps, dx1, dy1), dx2, dy2) == ShiftPoints(ps, dx1 + dx2, dy1 + dy2);
      case _ =>
      }
    case Group(cs) =>
      var ms := Translate(n, dx1, dy1).value.children;
      forall i | 0 <= i < |cs| ensures Translate(ms[i], dx2, dy2) == Translate(cs[i], dx1 + dx2, dy1 + dy2) {
        TranslateCompose(cs[i], dx1, dy1, dx2, dy2);
      }
      TranslateAllPointwise(ms, cs, dx2, dy2, dx1 + dx2, dy1 + dy2);
  }

  /** Two lists whose elements translate to the same trees translate to the same list. */
  lemma {:induction false} TranslateAllPointwise(ms: seq<Node>, cs: seq<Node>, dxm: real, dym: real, dxc: real, dyc: real)
    requires |ms| == |cs|
    requires forall i :: 0 <= i < |cs| ==> Translate(ms[i], dxm, dym) == Translate(cs[i], dxc, dyc)
    ensures TranslateAll(ms, dxm, dym) == TranslateAll(cs, dxc, dyc)
  {
    if |cs| > 0 {
      TranslateAllPointwise(ms[1..], cs[1..], dxm, dym, dxc, dyc);
    }
  }

  /** Translating by zero gives back the same tree whenever translation is defined. */
  lemma {:induction false} TranslateZero(n: Node)
    requires Movable(n)
    ensures Translate(n, 0.0, 0.0) == Ok(n)
    decreases n
  {
    match n
    case Leaf(s) =>
      match s {
      case OpenPath(ps, _) => assert ShiftPoints(ps, 0.0, 0.0) == ps;
      case ClosedPath(ps, _) => assert ShiftPoints(ps, 0.0, 0.0) == ps;
      case _ =>
      }
    case Group(cs) =>
      var r := TranslateAll(cs, 0.0, 0.0);
      forall i | 0 <= i < |cs| ensures Translate(cs[i], 0.0, 0.0) == Ok(cs[i]) {
        TranslateZero(cs[i]);
      }
      assert r.value == cs;
  }

  /** Translating back by the opposite deltas restores the tree. */
  lemma TranslateInverse(n: Node, dx: real, dy: real)
    requires Translate(n, dx, dy).Ok?
    ensures Translate(Translate(n, dx, dy).value, -dx, -dy) == Ok(n)
  {
    TranslateCompose(n, dx, dy, -dx, -dy);
    assert dx + -dx == 0.0 && dy + -dy == 0.0;
    TranslateZero(n);
  }

  // ---------------------------------------------------------------------
  // scale

  /** `scale_coords`: both coordinates multiplied by `alpha`, a scaling about the origin. */
  function ScaleCoords(p: Point, alpha: real): Point {
    Point(alpha * p.x, alpha * p.y)
  }

  /**
   * Scaling moves a point to the fraction `alpha` of the way along the ray
   * from the origin through it; scalings compose by multiplying their
   * factors, and scaling a translated point scales the translation too.
   */
  lemma ScaleCoordsLinear(p: Point, alpha: real, beta: real, dx: real, dy: real)
    ensures ScaleCoords(p, alpha) == ConvexCombinationCoords(Origin, p, alpha)
    ensures ScaleCoords(ScaleCoords(p, alpha), beta) == ScaleCoords(p, beta * alpha)
    ensures ScaleCoords(TranslateCoords(p, dx, dy), alpha) == TranslateCoords(ScaleCoords(p, alpha), alpha * dx, alpha * dy)
  {
  }

  function ScalePoints(ps: seq<Point>, alpha: real): (r: seq<Point>)
    ensures |r| == |ps| && forall i :: 0 <= i < |ps| ==> r[i] == ScaleCoords(ps[i], alpha)
  {
    seq(|ps|, i requires 0 <= i < |ps| => ScaleCoords(ps[i], alpha))
  }

  /**
   * One record scaled about the origin, as the engine does it: coordinates,
   * circle radius, image width and height are multiplied by `alpha`, but an
   * ellipse has only its horizontal radius multiplied.
   */
  function ScaleShape(s: Shape, alpha: real): (r: Result<Shape>)
    ensures r.Ok? <==> Movable(Leaf(s))
    ensures r.Err? ==> r.error == NotImplementedFor(Kind(s))
    ensures r.Ok? ==> Kind(r.value) == Kind(s) && r.value.style == s.style
    ensures r.Ok? ==> ShapePoints(r.value) == ScalePoints(ShapePoints(s), alpha)
    ensures r.Ok? && s.Circle? ==> r.value.Circle? && r.value.radius == alpha * s.radius
    ensures r.Ok? && s.Ellipse? ==>
              r.value.Ellipse? && r.value.horizontalRadius == alpha * s.horizontalRadius && r.value.verticalRadius == s.verticalRadius
    ensures r.Ok? && s.Latex? ==> r.value.Latex? && r.value.expr == s.expr
    ensures r.Ok? && s.Image? ==>
              r.value.Image? && r.value.filepath == s.filepath
              && r.value.height == alpha * s.height && r.value.width == alpha * s.width
  {
    match s
    case OpenPath(ps, st) => Ok(OpenPath(ScalePoints(ps, alpha), st))
    case ClosedPath(ps, st) => Ok(ClosedPath(ScalePoints(ps, alpha), st))
    case Circle(c, r, st) => Ok(Circle(ScaleCoords(c, alpha), r * alpha, st))
    case Ellipse(c, rx, ry, st) => Ok(Ellipse(ScaleCoords(c, alpha), rx * alpha, ry, st))
    case Bezier(f, t, c1, c2, st) =>
      Ok(Bezier(ScaleCoords(f, alpha), ScaleCoords(t, alpha), ScaleCoords(c1, alpha), ScaleCoords(c2, alpha), st))
    case Latex(a, e, st) => Ok(Latex(ScaleCoords(a, alpha), e, st))
    case Image(f, tl, h, w, st) => Ok(Image(f, ScaleCoords(tl, alpha), h * alpha, w * alpha, st))
    case CircularArc(_, _, _, _, _) => Err(NotImplementedFor("circular_arc"))
    case Unrecognized(k, _) => Err(NotImplementedFor(k))
  }

  /**
   * `scale(e, alpha)`: scales every record of the tree about the origin
   * (so the tree's centre moves too). Fails where translation fails.
   */
  function Scale(n: Node, alpha: real): (r: Result<Node>)
    decreases n
    ensures r.Ok? <==> Movable(n)
  {
    match n
    case Leaf(s) =>
      var s' :- ScaleShape(s, alpha);
      Ok(Leaf(s'))
    case Group(cs) =>
      if |cs| == 0 then Err(EmptyComposite)
      else
        var cs' :- ScaleAll(cs, alpha);
        Ok(Group(cs'))
  }

  function ScaleAll(cs: seq<Node>, alpha: real): (r: Result<seq<Node>>)
    decreases cs
    ensures r.Ok? <==> forall i :: 0 <= i < |cs| ==> Movable(cs[i])
    ensures r.Ok? ==> |r.value| == |cs| && forall i :: 0 <= i < |cs| ==> Scale(cs[i], alpha) == Ok(r.value[i])
  {
    if |cs| == 0 then Ok([])
    else
      var first :- Scale(cs[0], alpha);
      var rest :- ScaleAll(cs[1..], alpha);
      Ok([first] + rest)
  }

  /** A successful scaling multiplies every coordinate of the tree by `alpha`. */
  lemma {:induction false} ScaleScalesEveryPoint(n: Node, alpha: real)
    requires Scale(n, alpha).Ok?
    ensures Points(Scale(n, alpha).value) == ScalePoints(Points(n), alpha)
    decreases n
  {
    match n
    case Leaf(s) =>
    case Group(cs) =>
      var ms := Scale(n, alpha).value.children;
      forall i | 0 <= i < |cs| ensures Points(ms[i]) == ScalePoints(Points(cs[i]), alpha) {
        ScaleScalesEveryPoint(cs[i], alpha);
      }
      ScaleAllPoints(cs, ms, alpha);
  }

  lemma {:induction false} ScaleAllPoints(cs: seq<Node>, ms: seq<Node>, alpha: real)
    requires |ms| == |cs|
    requires forall i :: 0 <= i < |cs| ==> Points(ms[i]) == ScalePoints(Points(cs[i]), alpha)
    ensures PointsAll(ms) == ScalePoints(PointsAll(cs), alpha)
    decreases cs
  {
    if |cs| > 0 {
      ScaleAllPoints(cs[1..], ms[1..], alpha);
      assert ScalePoints(Points(cs[0]) + PointsAll(cs[1..]), alpha)
          == ScalePoints(Points(cs[0]), alpha) + ScalePoints(PointsAll(cs[1..]), alpha);
    }
  }

  /** A box with each of its four coordinates passed through `f`. */
  function MapBox(b: Box, f: real -> real): Box {
    Box(Point(f(b.topLeft.x), f(b.topLeft.y)), Point(f(b.bottomRight.x), f(b.bottomRight.y)))
  }

  function ScaleBox(b: Box, alpha: real): Box {
    MapBox(b, x => alpha * x)
  }

  /**
   * As written, scaling an ellipse multiplies the width of its box by
   * `alpha` but leaves the height as it was.
   */
  lemma ScaleKeepsEllipseHeight(c: Point, rx: real, ry: real, st: string, alpha: real)
    ensures var e := Leaf(Ellipse(c, rx, ry, st));
      && Scale(e, alpha).Ok?
      && Width(BBox(Scale(e, alpha).value).value) == alpha * Width(BBox(e).value)
      && Height(BBox(Scale(e, alpha).value).value) == Height(BBox(e).value)
  {
    var el := Ellipse(c, rx, ry, st);
    var scaled := ScaleShape(el, alpha).value;
    assert Scale(Leaf(el), alpha) == Ok(Leaf(scaled));
    assert scaled.horizontalRadius == rx * alpha && scaled.verticalRadius == ry;
    assert alpha * (2.0 * rx) == 2.0 * (rx * alpha);
  }

  /**
   * So scaling a unit circle drawn as an ellipse (anywhere, in any style) by 2
   * does not scale its box by 2.
   */
  lemma ScaleEllipseCounterexample(c: Point, st: string)
    ensures var e := Leaf(Ellipse(c, 1.0, 1.0, st));
      BBox(Scale(e, 2.0).value) != Ok(ScaleBox(BBox(e).value, 2.0))
  {
    var e := Leaf(Ellipse(c, 1.0, 1.0, st));
    ScaleKeepsEllipseHeight(c, 1.0, 1.0, st, 2.0);
    var b := BBox(e).value;
    assert Height(b) == 2.0;
    assert Height(ScaleBox(b, 2.0)) == 4.0;
  }

  /** Scaling a record with the vertical radius of an ellipse scaled as well. */
  function ScaleShapeUniformly(s: Shape, alpha: real): (r: Result<Shape>)
    ensures r.Ok? <==> Movable(Leaf(s))
  {
    match s
    case Ellipse(c, rx, ry, st) => Ok(Ellipse(ScaleCoords(c, alpha), rx * alpha, ry * alpha, st))
    case _ => ScaleShape(s, alpha)
  }

  /** `scale` with every size scaled by the same factor. */
  function ScaleUniformly(n: Node, alpha: real): (r: Result<Node>)
    decreases n
    ensures r.Ok? <==> Movable(n)
  {
    match n
    case Leaf(s) =>
      var s' :- ScaleShapeUniformly(s, alpha);
      Ok(Leaf(s'))
    case Group(cs) =>
      if |cs| == 0 then Err(EmptyComposite)
      else
        var cs' :- ScaleAllUniformly(cs, alpha);
        Ok(Group(cs'))
  }

  function ScaleAllUniformly(cs: seq<Node>, alpha: real): (r: Result<seq<Node>>)
    decreases cs
    ensures r.Ok? <==> forall i :: 0 <= i < |cs| ==> Movable(cs[i])
    ensures r.Ok? ==> |r.value| == |cs| && forall i :: 0 <= i < |cs| ==> ScaleUniformly(cs[i], alpha) == Ok(r.value[i])
  {
    if |cs| == 0 then Ok([])
    else
      var first :- ScaleUniformly(cs[0], alpha);
      var rest :- ScaleAllUniformly(cs[1..], alpha);
      Ok([first] + rest)
  }

  /** No record of the tree is an ellipse. */
  predicate NoEllipse(n: Node)
    decreases n
  {
    match n
    case Leaf(s) => !s.Ellipse?
    case Group(cs) => forall c :: c in cs ==> NoEllipse(c)
  }

  /**
   * Away from ellipses, `scale` is the uniform scaling: same successes, same
   * errors, same results.
   */
  lemma {:induction false} ScaleUniformWithoutEllipses(n: Node, alpha: real)
    requires NoEllipse(n)
    ensures Scale(n, alpha) == ScaleUniformly(n, alpha)
    decreases n
  {
    match n
    case Leaf(s) =>
    case Group(cs) =>
      if |cs| > 0 {
        ScaleAllUniformWithoutEllipses(cs, alpha);
      }
  }

  lemma {:induction false} ScaleAllUniformWithoutEllipses(cs: seq<Node>, alpha: real)
    requires forall c :: c in cs ==> NoEllipse(c)
    ensures ScaleAll(cs, alpha) == ScaleAllUniformly(cs, alpha)
    decreases cs
  {
    if |cs| > 0 {
      ScaleUniformWithoutEllipses(cs[0], alpha);
      assert forall c :: c in cs[1..] ==> c in cs;
      ScaleAllUniformWithoutEllipses(cs[1..], alpha);
    }
  }

  /** So for a tree without ellipses, `scale` with a non-negative factor scales the box. */
  lemma ScaleScalesBBoxWithoutEllipses(n: Node, alpha: real)
    requires alpha >= 0.0 && Movable(n) && Measurable(n) && NoEllipse(n)
    ensures BBox(Scale(n, alpha).value) == Ok(ScaleBox(BBox(n).value, alpha))
  {
    ScaleUniformWithoutEllipses(n, alpha);
    ScaleUniformlyScalesBBox(n, alpha);
  }

  ghost predicate Monotone(f: real -> real) {
    forall x: real, y: real :: x <= y ==> f(x) <= f(y)
  }

  /** Joining boxes commutes with any order-preserving map of the coordinates. */
  lemma JoinMap(a: Box, b: Box, f: real -> real)
    requires Monotone(f)
    ensures Join(MapBox(a, f), MapBox(b, f)) == MapBox(Join(a, b), f)
  {
  }

  lemma JoinScale(a: Box, b: Box, alpha: real)
    requires alpha >= 0.0
    ensures Join(ScaleBox(a, alpha), ScaleBox(b, alpha)) == ScaleBox(Join(a, b), alpha)
  {
    ScaleMonotone(alpha);
    JoinMap(a, b, x => alpha * x);
  }

  lemma {:induction false} PathBoxScale(ps: seq<Point>, alpha: real)
    requires |ps| > 0 && alpha >= 0.0
    ensures PathBox(ScalePoints(ps, alpha)) == ScaleBox(PathBox(ps), alpha)
  {
    if |ps| > 1 {
      PathBoxScale(ps[1..], alpha);
      PathBoxScaleStep(ps, alpha);
      JoinScale(Box(ps[0], ps[0]), PathBox(ps[1..]), alpha);
    }
  }

  /** The box of scaled points joins the scaled first point with the box of the scaled rest. */
  lemma PathBoxScaleStep(ps: seq<Point>, alpha: real)
    requires |ps| > 1
    ensures PathBox(ScalePoints(ps, alpha)) == Join(ScaleBox(Box(ps[0], ps[0]), alpha), PathBox(ScalePoints(ps[1..], alpha)))
  {
    var qs := ScalePoints(ps, alpha);
    assert qs[1..] == ScalePoints(ps[1..], alpha);
    assert Box(qs[0], qs[0]) == ScaleBox(Box(ps[0], ps[0]), alpha);
  }

  /**
   * With a non-negative factor, the uniformly scaled tree's box is the old
   * box scaled by the same factor.
   */
  lemma {:induction false} ScaleUniformlyScalesBBox(n: Node, alpha: real)
    requires alpha >= 0.0 && Movable(n) && Measurable(n)
    ensures BBox(ScaleUniformly(n, alpha).value) == Ok(ScaleBox(BBox(n).value, alpha))
    decreases n
  {
    match n
    case Leaf(s) => ShapeBoxScalesUniformly(s, alpha);
    case Group(cs) =>
      var ms := ScaleUniformly(n, alpha).value.children;
      forall i | 0 <= i < |cs| ensures BBox(ms[i]) == Ok(ScaleBox(BBox(cs[i]).value, alpha)) {
        ScaleUniformlyScalesBBox(cs[i], alpha);
      }
      BBoxAllScale(cs, ms, alpha);
  }

  lemma ShapeBoxScalesUniformly(s: Shape, alpha: real)
    requires alpha >= 0.0 && Movable(Leaf(s)) && Measurable(Leaf(s))
    ensures ShapeBox(ScaleShapeUniformly(s, alpha).value) == Ok(ScaleBox(ShapeBox(s).value, alpha))
  {
    match s {
      case OpenPath(ps, _) => PathBoxScale(ps, alpha);
      case ClosedPath(ps, _) => PathBoxScale(ps, alpha);
      case Bezier(f, t, c1, c2, st) => BezierBoxScales(f, t, c1, c2, st, alpha);
      case Circle(c, r, st) => CircleBoxScales(c, r, st, alpha);
      case Ellipse(c, rx, ry, st) => EllipseBoxScales(c, rx, ry, st, alpha);
      case Image(f, tl, h, w, st) => ImageBoxScales(f, tl, h, w, st, alpha);
      case Latex(a, _, _) =>
        assert ScaleShapeUniformly(s, alpha).value.anchor == ScaleCoords(a, alpha);
        assert ScaleBox(Box(a, a), alpha) == Box(ScaleCoords(a, alpha), ScaleCoords(a, alpha));
    }
  }

  lemma BezierBoxScales(f: Point, t: Point, c1: Point, c2: Point, st: string, alpha: real)
    requires alpha >= 0.0
    ensures ShapeBox(ScaleShapeUniformly(Bezier(f, t, c1, c2, st), alpha).value)
         == Ok(ScaleBox(ShapeBox(Bezier(f, t, c1, c2, st)).value, alpha))
  {
    var g := x => alpha * x;
    ScaleMonotone(alpha);
    var s' := ScaleShapeUniformly(Bezier(f, t, c1, c2, st), alpha).value;
    assert s'.from == MapPoint(f, g) && s'.to == MapPoint(t, g);
    CornersMap(f, t, g);
  }

  function MapPoint(p: Point, f: real -> real): Point {
    Point(f(p.x), f(p.y))
  }

  /** The corner helpers commute with any order-preserving map of the coordinates. */
  lemma CornersMap(p: Point, q: Point, f: real -> real)
    requires Monotone(f)
    ensures TopLeftCoords(MapPoint(p, f), MapPoint(q, f)) == MapPoint(TopLeftCoords(p, q), f)
    ensures BottomRightCoords(MapPoint(p, f), MapPoint(q, f)) == MapPoint(BottomRightCoords(p, q), f)
  {
  }

  lemma ScaleMonotone(alpha: real)
    requires alpha >= 0.0
    ensures Monotone(x => alpha * x)
  {
    var f := x => alpha * x;
    forall x: real, y: real | x <= y ensures f(x) <= f(y) {
      assert alpha * (y - x) >= 0.0;
    }
  }

  lemma CircleBoxScales(c: Point, r: real, st: string, alpha: real)
    ensures ShapeBox(ScaleShapeUniformly(Circle(c, r, st), alpha).value) == Ok(ScaleBox(ShapeBox(Circle(c, r, st)).value, alpha))
  {
    var s' := ScaleShapeUniformly(Circle(c, r, st), alpha).value;
    assert s'.center == ScaleCoords(c, alpha) && s'.radius == r * alpha;
    var b := ShapeBox(Circle(c, r, st)).value;
    assert ScaleBox(b, alpha).topLeft == Point(alpha * (c.x - r), alpha * (c.y + r));
    assert ScaleBox(b, alpha).bottomRight == Point(alpha * (c.x + r), alpha * (c.y - r));
    assert alpha * (c.x - r) == alpha * c.x - r * alpha;
    assert alpha * (c.y + r) == alpha * c.y + r * alpha;
    assert alpha * (c.x + r) == alpha * c.x + r * alpha;
    assert alpha * (c.y - r) == alpha * c.y - r * alpha;
  }

  lemma EllipseBoxScales(c: Point, rx: real, ry: real, st: string, alpha: real)
    ensures ShapeBox(ScaleShapeUniformly(Ellipse(c, rx, ry, st), alpha).value)
         == Ok(ScaleBox(ShapeBox(Ellipse(c, rx, ry, st)).value, alpha))
  {
    var s' := ScaleShapeUniformly(Ellipse(c, rx, ry, st), alpha).value;
    assert s'.center == ScaleCoords(c, alpha) && s'.horizontalRadius == rx * alpha && s'.verticalRadius == ry * alpha;
    var b := ShapeBox(Ellipse(c, rx, ry, st)).value;
    assert ScaleBox(b, alpha).topLeft == Point(alpha * (c.x - rx), alpha * (c.y + ry));
    assert ScaleBox(b, alpha).bottomRight == Point(alpha * (c.x + rx), alpha * (c.y - ry));
    assert alpha * (c.x - rx) == alpha * c.x - rx * alpha;
    assert alpha * (c.y + ry) == alpha * c.y + ry * alpha;
    assert alpha * (c.x + rx) == alpha * c.x + rx * alpha;
    assert alpha * (c.y - ry) == alpha * c.y - ry * alpha;
  }

  lemma ImageBoxScales(f: string, tl: Point, h: real, w: real, st: string, alpha: real)
    ensures ShapeBox(ScaleShapeUniformly(Image(f, tl, h, w, st), alpha).value)
         == Ok(ScaleBox(ShapeBox(Image(f, tl, h, w, st)).value, alpha))
  {
    var s' := ScaleShapeUniformly(Image(f, tl, h, w, st), alpha).value;
    assert s'.topLeft == ScaleCoords(tl, alpha) && s'.height == h * alpha && s'.width == w * alpha;
    var b := ShapeBox(Image(f, tl, h, w, st)).value;
    assert ScaleBox(b, alpha).topLeft == ScaleCoords(tl, alpha);
    assert ScaleBox(b, alpha).bottomRight == Point(alpha * (tl.x + w), alpha * (tl.y + -h));
    assert alpha * (tl.x + w) == alpha * tl.x + w * alpha;
    assert alpha * (tl.y + -h) == alpha * tl.y + -(h * alpha);
  }

  lemma {:induction false} BBoxAllScale(cs: seq<Node>, ms: seq<Node>, alpha: real)
    requires |cs| > 0 && |ms| == |cs| && alpha >= 0.0
    requires forall i :: 0 <= i < |cs| ==> BBox(cs[i]).Ok? && BBox(ms[i]) == Ok(ScaleBox(BBox(cs[i]).value, alpha))
    ensures BBoxAll(cs).Ok? && BBoxAll(ms) == Ok(ScaleBox(BBoxAll(cs).value, alpha))
  {
    if |cs| > 1 {
      BBoxAllScale(cs[1..], ms[1..], alpha);
      JoinScale(BBox(cs[0]).value, BBoxAll(cs[1..]).value, alpha);
    }
  }
}
