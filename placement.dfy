/**
 * Placement of one tree relative to a point or to another tree: moving a
 * named anchor of its box onto given coordinates, putting it beside a
 * reference tree at a given spacing, and putting it beside a reference tree
 * with one of its edges or its centre lined up with the reference's.
 */
module Placement {
  import opened Coords
  import opened Shapes
  import opened BBoxes
  import opened Transform

  // ---------------------------------------------------------------------
  // translate_to_coords and translate_bbox_<anchor>_to_coords

  /** `translate_to_coords(e, from_cs, to_cs)`: the translation that carries `from` onto `to`. */
  function TranslateToCoords(n: Node, from: Point, to: Point): (r: Result<Node>)
    ensures r.Ok? <==> Movable(n)
  {
    var d := Deltas(Vector(from, to));
    Translate(n, d.0, d.1)
  }

  /**
   * The tree moves rigidly by the displacement from `from` to `to`; its box,
   * when it has one, moves by the same displacement.
   */
  lemma TranslateToCoordsMoves(n: Node, from: Point, to: Point)
    requires TranslateToCoords(n, from, to).Ok?
    ensures MovedBy(n, TranslateToCoords(n, from, to).value, DeltaX(Vector(from, to)), DeltaY(Vector(from, to)))
    ensures Measurable(n) ==> BBox(TranslateToCoords(n, from, to).value) == Ok(ShiftBox(BBox(n).value, DeltaX(Vector(from, to)), DeltaY(Vector(from, to))))
  {
    var dx, dy := DeltaX(Vector(from, to)), DeltaY(Vector(from, to));
    assert TranslateToCoords(n, from, to) == Translate(n, dx, dy);
    TranslateMovesEveryPoint(n, dx, dy);
    if Measurable(n) {
      TranslateShiftsBBox(n, dx, dy);
    }
  }

  /**
   * `translate_bbox_<anchor>_to_coords(e, cs)`: moves the tree so that the
   * given anchor of its box lands on `cs`. The box is computed first, so a
   * tree without a box fails with the box's error.
   */
  function TranslateBBoxAnchorToCoords(n: Node, a: Anchor, cs: Point): (r: Result<Node>)
    ensures r.Ok? <==> Measurable(n) && Movable(n)
    ensures !Measurable(n) ==> r == Err(BBox(n).error)
  {
    var b :- BBox(n);
    TranslateToCoords(n, BoxAnchor(a, b), cs)
  }

  /**
   * After `translate_bbox_<anchor>_to_coords` the anchor of the new box is
   * `cs`, the box keeps its width and height, and the tree has moved
   * rigidly by the displacement from the old anchor to `cs`.
   */
  lemma AnchorLandsOnCoords(n: Node, a: Anchor, cs: Point)
    requires TranslateBBoxAnchorToCoords(n, a, cs).Ok?
    ensures var m := TranslateBBoxAnchorToCoords(n, a, cs).value;
      var b := BBox(n).value;
      && BBox(m).Ok?
      && BoxAnchor(a, BBox(m).value) == cs
      && Width(BBox(m).value) == Width(b) && Height(BBox(m).value) == Height(b)
      && MovedBy(n, m, DeltaX(Vector(BoxAnchor(a, b), cs)), DeltaY(Vector(BoxAnchor(a, b), cs)))
  {
    var b := BBox(n).value;
    var from := BoxAnchor(a, b);
    var dx, dy := DeltaX(Vector(from, cs)), DeltaY(Vector(from, cs));
    assert TranslateBBoxAnchorToCoords(n, a, cs) == TranslateToCoords(n, from, cs);
    TranslateToCoordsMoves(n, from, cs);
    AnchorsFollowShift(a, b, dx, dy);
  }

  // ---------------------------------------------------------------------
  // place_above, place_below, place_to_the_left, place_to_the_right

  /** On which side of the reference tree the element goes. */
  datatype Side = Above | Below | LeftOf | RightOf

  /**
   * The facing sides of `nb` (the element's box) and `rb` (the reference's
   * box) are `spacing` apart, `nb` being on the given side of `rb`.
   */
  predicate Beside(nb: Box, rb: Box, side: Side, spacing: real) {
    match side
    case Above => nb.bottomRight.y == rb.topLeft.y + spacing
    case Below => nb.topLeft.y == rb.bottomRight.y - spacing
    case LeftOf => nb.bottomRight.x == rb.topLeft.x - spacing
    case RightOf => nb.topLeft.x == rb.bottomRight.x + spacing
  }

  /**
   * The displacement `place_<side>` applies to an element with box `b`:
   * along the placement axis only, by the distance that leaves a gap of
   * `spacing` to the reference box `rb`.
   */
  function BesideShift(rb: Box, b: Box, side: Side, spacing: real): (real, real) {
    match side
    case Above => (0.0, (rb.topLeft.y - b.bottomRight.y) + spacing)
    case Below => (0.0, (rb.bottomRight.y - b.topLeft.y) - spacing)
    case LeftOf => ((rb.topLeft.x - b.bottomRight.x) - spacing, 0.0)
    case RightOf => ((rb.bottomRight.x - b.topLeft.x) + spacing, 0.0)
  }

  /**
   * Shifting a box by `BesideShift` puts it beside the reference box, moving
   * it along one axis only; a box that is already there does not move.
   */
  lemma BesideShiftPlaces(rb: Box, b: Box, side: Side, spacing: real)
    ensures var d := BesideShift(rb, b, side, spacing);
      && Beside(ShiftBox(b, d.0, d.1), rb, side, spacing)
      && ((side == Above || side == Below) ==> d.0 == 0.0)
      && ((side == LeftOf || side == RightOf) ==> d.1 == 0.0)
      && (Beside(b, rb, side, spacing) <==> d == (0.0, 0.0))
  {
  }

  /**
   * `place_above`, `place_below`, `place_to_the_left` and
   * `place_to_the_right`: moves the element along one axis so that the gap
   * between its box and the reference's box on that side is `spacing`. The
   * reference's box is computed first, then the element's.
   */
  function PlaceBeside(n: Node, ref: Node, side: Side, spacing: real): (r: Result<Node>)
    ensures r.Ok? <==> Measurable(ref) && Measurable(n) && Movable(n)
    ensures !Measurable(ref) ==> r == Err(BBox(ref).error)
    ensures Measurable(ref) && !Measurable(n) ==> r == Err(BBox(n).error)
  {
    var rb :- BBox(ref);
    var b :- BBox(n);
    var d := BesideShift(rb, b, side, spacing);
    Translate(n, d.0, d.1)
  }

  /**
   * The element's new box is beside the reference's box at the given
   * spacing and has the old size, and the element moved rigidly along the
   * placement axis only: placing above or below keeps every x coordinate,
   * placing left or right every y coordinate.
   */
  lemma PlaceBesideGap(n: Node, ref: Node, side: Side, spacing: real)
    requires PlaceBeside(n, ref, side, spacing).Ok?
    ensures var m := PlaceBeside(n, ref, side, spacing).value;
      && BBox(m).Ok?
      && Beside(BBox(m).value, BBox(ref).value, side, spacing)
      && Width(BBox(m).value) == Width(BBox(n).value) && Height(BBox(m).value) == Height(BBox(n).value)
      && ((side == Above || side == Below) ==> exists dy :: MovedBy(n, m, 0.0, dy))
      && ((side == LeftOf || side == RightOf) ==> exists dx :: MovedBy(n, m, dx, 0.0))
  {
    var rb, b := BBox(ref).value, BBox(n).value;
    var d := BesideShift(rb, b, side, spacing);
    var m := PlaceBeside(n, ref, side, spacing).value;
    assert m == Translate(n, d.0, d.1).value;
    TranslateMovesEveryPoint(n, d.0, d.1);
    TranslateShiftsBBox(n, d.0, d.1);
    BesideShiftPlaces(rb, b, side, spacing);
  }

  /** Placing an element a second time against the same reference leaves it where it is. */
  lemma PlaceBesideIdempotent(n: Node, ref: Node, side: Side, spacing: real)
    requires PlaceBeside(n, ref, side, spacing).Ok?
    ensures var m := PlaceBeside(n, ref, side, spacing).value;
      PlaceBeside(m, ref, side, spacing) == Ok(m)
  {
    var m := PlaceBeside(n, ref, side, spacing).value;
    var d := BesideShift(BBox(ref).value, BBox(n).value, side, spacing);
    PlaceBesideGap(n, ref, side, spacing);
    TranslateStaysMovable(n, d.0, d.1);
    BesideShiftPlaces(BBox(ref).value, BBox(m).value, side, spacing);
    TranslateZero(m);
  }

  // ---------------------------------------------------------------------
  // place_<side>_and_align_to_the_<edge>

  /**
   * Which edge (or the centre) is lined up: left, centre or right when
   * placing above or below; top, centre or bottom when placing left or right.
   */
  datatype Alignment = Start | Middle | End

  /** The reference anchor the element is placed against. */
  function RefAnchor(side: Side, al: Alignment): Anchor {
    match (side, al)
    case (Above, Start) => TopLeft
    case (Above, Middle) => TopCenter
    case (Above, End) => TopRight
    case (Below, Start) => BottomLeft
    case (Below, Middle) => BottomCenter
    case (Below, End) => BottomRight
    case (LeftOf, Start) => TopLeft
    case (LeftOf, Middle) => LeftCenter
    case (LeftOf, End) => BottomLeft
    case (RightOf, Start) => TopRight
    case (RightOf, Middle) => RightCenter
    case (RightOf, End) => BottomRight
  }

  /** The element's own anchor that lands next to the reference anchor. */
  function OwnAnchor(side: Side, al: Alignment): Anchor {
    match (side, al)
    case (Above, Start) => BottomLeft
    case (Above, Middle) => BottomCenter
    case (Above, End) => BottomRight
    case (Below, Start) => TopLeft
    case (Below, Middle) => TopCenter
    case (Below, End) => TopRight
    case (LeftOf, Start) => TopRight
    case (LeftOf, Middle) => RightCenter
    case (LeftOf, End) => BottomRight
    case (RightOf, Start) => TopLeft
    case (RightOf, Middle) => LeftCenter
    case (RightOf, End) => BottomLeft
  }

  /** The point `spacing` away from the reference anchor, on the placement side. */
  function Target(refCs: Point, side: Side, spacing: real): Point {
    match side
    case Above => TranslateCoordsVertically(refCs, spacing)
    case Below => TranslateCoordsVertically(refCs, -spacing)
    case LeftOf => TranslateCoordsHorizontally(refCs, -spacing)
    case RightOf => TranslateCoordsHorizontally(refCs, spacing)
  }

  /**
   * The twelve `place_<side>_and_align_to_the_<edge>` operations: reads the
   * reference anchor, steps `spacing` away from it on the placement side,
   * and moves the element's opposite anchor onto that point.
   */
  function PlaceAligned(n: Node, ref: Node, side: Side, al: Alignment, spacing: real): (r: Result<Node>)
    ensures r.Ok? <==> Measurable(ref) && Measurable(n) && Movable(n)
    ensures !Measurable(ref) ==> r == Err(BBox(ref).error)
    ensures Measurable(ref) && !Measurable(n) ==> r == Err(BBox(n).error)
  {
    var refCs :- CoordsFromBBox(ref, RefAnchor(side, al));
    TranslateBBoxAnchorToCoords(n, OwnAnchor(side, al), Target(refCs, side, spacing))
  }

  /**
   * The chosen edges (or centres) of `nb` and `rb` line up: left edges, centres
   * or right edges for a placement above or below; top edges, centres or
   * bottom edges for a placement to the left or right.
   */
  predicate LinedUp(nb: Box, rb: Box, side: Side, al: Alignment) {
    if side == Above || side == Below then
      match al
      case Start => nb.topLeft.x == rb.topLeft.x
      case Middle => MidwayCoords(nb.topLeft, nb.bottomRight).x == MidwayCoords(rb.topLeft, rb.bottomRight).x
      case End => nb.bottomRight.x == rb.bottomRight.x
    else
      match al
      case Start => nb.topLeft.y == rb.topLeft.y
      case Middle => MidwayCoords(nb.topLeft, nb.bottomRight).y == MidwayCoords(rb.topLeft, rb.bottomRight).y
      case End => nb.bottomRight.y == rb.bottomRight.y
  }

  /** The box `b` moved so that its own anchor lands `spacing` away from the reference anchor of `rb`. */
  function AlignedBox(rb: Box, b: Box, side: Side, al: Alignment, spacing: real): Box {
    var cs := Target(AnchorCoords(RefAnchor(side, al), rb.topLeft, rb.bottomRight), side, spacing);
    var from := BoxAnchor(OwnAnchor(side, al), b);
    ShiftBox(b, cs.x - from.x, cs.y - from.y)
  }

  /** For boxes whose corners are in order, the moved box is beside the reference and lined up with it. */
  lemma AlignedBoxGeometry(rb: Box, b: Box, side: Side, al: Alignment, spacing: real)
    requires WellFormed(rb) && WellFormed(b)
    ensures var nb := AlignedBox(rb, b, side, al, spacing);
      Beside(nb, rb, side, spacing) && LinedUp(nb, rb, side, al)
  {
  }

  /**
   * For trees whose sizes are non-negative (so that the boxes' corners are
   * in order): the element ends up beside the reference at the given spacing,
   * exactly as with `PlaceBeside`, with the chosen edges or centres lined up
   * and its size unchanged.
   */
  lemma PlaceAlignedGeometry(n: Node, ref: Node, side: Side, al: Alignment, spacing: real)
    requires PlaceAligned(n, ref, side, al, spacing).Ok?
    requires NonNegativeSizes(n) && NonNegativeSizes(ref)
    ensures var m := PlaceAligned(n, ref, side, al, spacing).value;
      && BBox(m).Ok?
      && Beside(BBox(m).value, BBox(ref).value, side, spacing)
      && LinedUp(BBox(m).value, BBox(ref).value, side, al)
      && Width(BBox(m).value) == Width(BBox(n).value) && Height(BBox(m).value) == Height(BBox(n).value)
  {
    var rb, b := BBox(ref).value, BBox(n).value;
    var refCs := AnchorCoords(RefAnchor(side, al), rb.topLeft, rb.bottomRight);
    var cs := Target(refCs, side, spacing);
    var from := BoxAnchor(OwnAnchor(side, al), b);
    assert PlaceAligned(n, ref, side, al, spacing) == TranslateToCoords(n, from, cs);
    TranslateToCoordsMoves(n, from, cs);
    AlignedBoxGeometry(rb, b, side, al, spacing);
  }
}
