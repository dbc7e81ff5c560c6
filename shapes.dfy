/**
 * The shape model. A shape record is one of the variants the engine knows,
 * each with an opaque style string; a composite is an ordered, arbitrarily
 * nested list of shapes and composites. Failures of the engine's operations
 * are values of `Result`/`Outcome` rather than exceptions.
 */
module Shapes {
  import opened Coords

  /** Why an operation on a tree fails. */
  datatype Error =
    | EmptyComposite                // a list with no elements reached an operation that asserts it is non-empty
    | EmptyPointList                // the bounding box of a path without points (min of an empty list)
    | NotImplementedFor(kind: string) // a record whose type tag the operation has no case for

  datatype Result<T> = Ok(value: T) | Err(error: Error) {
    predicate IsFailure() { Err? }
    function PropagateFailure<U>(): Result<U> requires Err? { Err(error) }
    function Extract(): T requires Ok? { value }
  }

  datatype Outcome = Pass | Fail(error: Error)

  /** One shape record; `style` is the style string handed verbatim to the serialiser. */
  datatype Shape =
    | OpenPath(points: seq<Point>, style: string)
    | ClosedPath(points: seq<Point>, style: string)
    | Circle(center: Point, radius: real, style: string)
    | CircularArc(center: Point, radius: real, startAngle: real, endAngle: real, style: string)
    | Ellipse(center: Point, horizontalRadius: real, verticalRadius: real, style: string)
    | Bezier(from: Point, to: Point, control1: Point, control2: Point, style: string)
    | Latex(anchor: Point, expr: string, style: string)
    | Image(filepath: string, topLeft: Point, height: real, width: real, style: string)
      /**
       * a record whose type tag none of the variants above carries (for
       * instance "elliptical_arc"); `kind` is never one of their tags, since
       * a record with such a tag is that variant
       */
    | Unrecognized(kind: string, style: string)

  /** A shape tree: a single record, or a list of subtrees. */
  datatype Node = Leaf(shape: Shape) | Group(children: seq<Node>)

  /** The record's type tag, as error messages report it. */
  function Kind(s: Shape): string {
    match s
    case OpenPath(_, _) => "open_path"
    case ClosedPath(_, _) => "closed_path"
    case Circle(_, _, _) => "circle"
    case CircularArc(_, _, _, _, _) => "circular_arc"
    case Ellipse(_, _, _, _) => "ellipse"
    case Bezier(_, _, _, _, _) => "bezier"
    case Latex(_, _, _) => "latex"
    case Image(_, _, _, _, _) => "image"
    case Unrecognized(k, _) => k
  }

  // ---------------------------------------------------------------------
  // Reference views of a tree: its coordinates, and everything else.

  /** Every coordinate field of a record, in field order. */
  function ShapePoints(s: Shape): seq<Point> {
    match s
    case OpenPath(ps, _) => ps
    case ClosedPath(ps, _) => ps
    case Circle(c, _, _) => [c]
    case CircularArc(c, _, _, _, _) => [c]
    case Ellipse(c, _, _, _) => [c]
    case Bezier(f, t, c1, c2, _) => [f, t, c1, c2]
    case Latex(a, _, _) => [a]
    case Image(_, tl, _, _, _) => [tl]
    case Unrecognized(_, _) => []
  }

  /** Every coordinate field of every record in the tree, left to right. */
  function Points(n: Node): seq<Point>
    decreases n
  {
    match n
    case Leaf(s) => ShapePoints(s)
    case Group(cs) => PointsAll(cs)
  }

  function PointsAll(cs: seq<Node>): seq<Point>
    decreases cs
  {
    if |cs| == 0 then [] else Points(cs[0]) + PointsAll(cs[1..])
  }

  const Origin := Point(0.0, 0.0)

  /** A record with every coordinate field replaced by the origin. */
  function EraseShape(s: Shape): Shape {
    match s
    case OpenPath(ps, st) => OpenPath(seq(|ps|, _ => Origin), st)
    case ClosedPath(ps, st) => ClosedPath(seq(|ps|, _ => Origin), st)
    case Circle(_, r, st) => Circle(Origin, r, st)
    case CircularArc(_, r, a0, a1, st) => CircularArc(Origin, r, a0, a1, st)
    case Ellipse(_, rx, ry, st) => Ellipse(Origin, rx, ry, st)
    case Bezier(_, _, _, _, st) => Bezier(Origin, Origin, Origin, Origin, st)
    case Latex(_, e, st) => Latex(Origin, e, st)
    case Image(f, _, h, w, st) => Image(f, Origin, h, w, st)
    case Unrecognized(k, st) => Unrecognized(k, st)
  }

  /**
   * The tree with its coordinates erased: two trees have the same `Erase`
   * exactly when they differ at most in coordinates (same nesting, list
   * lengths, variants, radii, sizes, text, file paths and style strings).
   */
  function Erase(n: Node): Node
    decreases n
  {
    match n
    case Leaf(s) => Leaf(EraseShape(s))
    case Group(cs) => Group(seq(|cs|, i requires 0 <= i < |cs| => Erase(cs[i])))
  }

  /** `ps` with every point moved by `(dx, dy)`. */
  function ShiftPoints(ps: seq<Point>, dx: real, dy: real): (r: seq<Point>)
    ensures |r| == |ps|
    ensures forall i :: 0 <= i < |ps| ==> r[i].x - ps[i].x == dx && r[i].y - ps[i].y == dy
  {
    seq(|ps|, i requires 0 <= i < |ps| => TranslateCoords(ps[i], dx, dy))
  }

  lemma ShiftPointsAppend(a: seq<Point>, b: seq<Point>, dx: real, dy: real)
    ensures ShiftPoints(a + b, dx, dy) == ShiftPoints(a, dx, dy) + ShiftPoints(b, dx, dy)
  {
  }

  /** `m` is `n` with every coordinate moved by `(dx, dy)` and nothing else changed. */
  predicate MovedBy(n: Node, m: Node, dx: real, dy: real) {
    Erase(m) == Erase(n) && Points(m) == ShiftPoints(Points(n), dx, dy)
  }

  // ---------------------------------------------------------------------
  // Where the operations are defined

  /** The bounding box is defined: no empty list, no path without points, no unrecognised record. */
  predicate Measurable(n: Node)
    decreases n
  {
    match n
    case Leaf(s) =>
      !s.Unrecognized? && ((s.OpenPath? || s.ClosedPath?) ==> |s.points| > 0)
    case Group(cs) => |cs| > 0 && forall c :: c in cs ==> Measurable(c)
  }

  /**
   * Translation and scaling are defined: no empty list, no circular arc and
   * no unrecognised record (neither operation has a case for them).
   */
  predicate Movable(n: Node)
    decreases n
  {
    match n
    case Leaf(s) => !s.CircularArc? && !s.Unrecognized?
    case Group(cs) => |cs| > 0 && forall c :: c in cs ==> Movable(c)
  }

  /** Every radius, width and height in the tree is non-negative. */
  predicate NonNegativeSizes(n: Node)
    decreases n
  {
    match n
    case Leaf(s) =>
      (match s
       case Circle(_, r, _) => r >= 0.0
       case CircularArc(_, r, _, _, _) => r >= 0.0
       case Ellipse(_, rx, ry, _) => rx >= 0.0 && ry >= 0.0
       case Image(_, _, h, w, _) => h >= 0.0 && w >= 0.0
       case _ => true)
    case Group(cs) => forall c :: c in cs ==> NonNegativeSizes(c)
  }
}
