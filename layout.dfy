/**
 * List-level layout: distributing the elements of a list one after the
 * other at a fixed spacing, and aligning an edge or the centre of every
 * element on a common coordinate. The engine mutates the list's elements in
 * place, one at a time; here the list is an array of trees updated element
 * by element. Distinct array slots hold distinct trees, so the elements are
 * disjoint by construction.
 */
module Layout {
  import opened Coords
  import opened Shapes
  import opened BBoxes
  import opened Transform

  /** The axis a list operation moves its elements along. */
  datatype Axis = Horizontal | Vertical

  /** The tree moved rigidly by `d` along `axis` and not at all along the other axis. */
  predicate MovedAlong(n: Node, m: Node, axis: Axis, d: real) {
    match axis
    case Horizontal => MovedBy(n, m, d, 0.0)
    case Vertical => MovedBy(n, m, 0.0, d)
  }

  /** The tree moved rigidly along `axis` by some distance and not at all along the other axis. */
  ghost predicate ShiftedAlong(n: Node, m: Node, axis: Axis) {
    exists d :: MovedAlong(n, m, axis, d)
  }

  /**
   * `translate_horizontally` / `translate_vertically`: defined exactly where
   * translation is, and moves the tree rigidly along `axis` by `d`.
   */
  function TranslateAlong(n: Node, axis: Axis, d: real): (r: Result<Node>)
    ensures r.Ok? <==> Movable(n)
    ensures r.Ok? ==> MovedAlong(n, r.value, axis, d)
  {
    match axis
    case Horizontal =>
      if Movable(n) then TranslateMovesEveryPoint(n, d, 0.0); Translate(n, d, 0.0) else Translate(n, d, 0.0)
    case Vertical =>
      if Movable(n) then TranslateMovesEveryPoint(n, 0.0, d); Translate(n, 0.0, d) else Translate(n, 0.0, d)
  }

  /** A translation along one axis moves the tree along that axis and its box with it. */
  lemma TranslateAlongMoves(n: Node, axis: Axis, d: real)
    requires TranslateAlong(n, axis, d).Ok?
    ensures var m := TranslateAlong(n, axis, d).value;
      && MovedAlong(n, m, axis, d)
      && Movable(m)
      && (Measurable(n) ==> BBox(m) == Ok(ShiftAlong(BBox(n).value, axis, d)))
  {
    match axis
    case Horizontal =>
      TranslateMovesEveryPoint(n, d, 0.0);
      TranslateStaysMovable(n, d, 0.0);
      if Measurable(n) { TranslateShiftsBBox(n, d, 0.0); }
    case Vertical =>
      TranslateMovesEveryPoint(n, 0.0, d);
      TranslateStaysMovable(n, 0.0, d);
      if Measurable(n) { TranslateShiftsBBox(n, 0.0, d); }
  }

  function ShiftAlong(b: Box, axis: Axis, d: real): Box {
    match axis
    case Horizontal => ShiftBox(b, d, 0.0)
    case Vertical => ShiftBox(b, 0.0, d)
  }

  // ---------------------------------------------------------------------
  // distribute_*_with_spacing

  /** Whether the spacing is measured between facing edges or between centres. */
  datatype Measure = Edges | Centers

  /**
   * `cur` follows `prev` at the given spacing: left to right (horizontal)
   * or bottom to top (vertical), edge to edge or centre to centre.
   */
  predicate Spaced(prev: Box, cur: Box, axis: Axis, measure: Measure, spacing: real) {
    match (axis, measure)
    case (Horizontal, Edges) => cur.topLeft.x - prev.bottomRight.x == spacing
    case (Vertical, Edges) => cur.bottomRight.y - prev.topLeft.y == spacing
    case (Horizontal, Centers) =>
      MidwayCoords(cur.topLeft, cur.bottomRight).x - MidwayCoords(prev.topLeft, prev.bottomRight).x == spacing
    case (Vertical, Centers) =>
      MidwayCoords(cur.topLeft, cur.bottomRight).y - MidwayCoords(prev.topLeft, prev.bottomRight).y == spacing
  }

  /** The displacement one step of a distribution applies to the element with box `cur`. */
  function DistributeShift(prev: Box, cur: Box, axis: Axis, measure: Measure, spacing: real): real {
    match (axis, measure)
    case (Horizontal, Edges) => prev.bottomRight.x - cur.topLeft.x + spacing
    case (Vertical, Edges) => prev.topLeft.y - cur.bottomRight.y + spacing
    case (Horizontal, Centers) =>
      MidwayCoords(prev.topLeft, prev.bottomRight).x - MidwayCoords(cur.topLeft, cur.bottomRight).x + spacing
    case (Vertical, Centers) =>
      MidwayCoords(prev.topLeft, prev.bottomRight).y - MidwayCoords(cur.topLeft, cur.bottomRight).y + spacing
  }

  /** Shifting by `DistributeShift` spaces the box after `prev`; a box already spaced does not move. */
  lemma DistributeShiftSpaces(prev: Box, cur: Box, axis: Axis, measure: Measure, spacing: real)
    ensures Spaced(prev, ShiftAlong(cur, axis, DistributeShift(prev, cur, axis, measure, spacing)), axis, measure, spacing)
    ensures Spaced(prev, cur, axis, measure, spacing) <==> DistributeShift(prev, cur, axis, measure, spacing) == 0.0
  {
  }

  /**
   * Where a distribution succeeds: lists of at most one element always;
   * longer lists when every element has a box and every element after the
   * first can be translated.
   */
  predicate Distributable(s: seq<Node>) {
    |s| <= 1 || ((forall i :: 0 <= i < |s| ==> Measurable(s[i])) && (forall i :: 1 <= i < |s| ==> Movable(s[i])))
  }

  /**
   * The first `k` elements are laid out: each of them after the first has a
   * box and follows its predecessor, which has one too, at the spacing.
   */
  predicate SpacedUpTo(a: seq<Node>, k: int, axis: Axis, measure: Measure, spacing: real)
    requires 0 <= k <= |a|
  {
    forall j :: 1 <= j < k ==> SpacedAt(a, j, axis, measure, spacing)
  }

  /** Element `j` has a box and follows its predecessor, which has one too, at the spacing. */
  predicate SpacedAt(a: seq<Node>, j: int, axis: Axis, measure: Measure, spacing: real)
    requires 1 <= j < |a|
  {
    Measurable(a[j - 1]) && Measurable(a[j]) && Spaced(BBox(a[j - 1]).value, BBox(a[j]).value, axis, measure, spacing)
  }

  /**
   * One step of a distribution: the box of `cur`, then the box of `prev`,
   * then `cur` translated along the axis to follow `prev` at the spacing.
   */
  function DistributeStep(prev: Node, cur: Node, axis: Axis, measure: Measure, spacing: real): (r: Result<Node>)
    ensures r.Ok? <==> Measurable(cur) && Measurable(prev) && Movable(cur)
    ensures !Measurable(cur) ==> r == Err(BBox(cur).error)
    ensures Measurable(cur) && !Measurable(prev) ==> r == Err(BBox(prev).error)
  {
    var c :- BBox(cur);
    var p :- BBox(prev);
    TranslateAlong(cur, axis, DistributeShift(p, c, axis, measure, spacing))
  }

  /** A successful step moves `cur` rigidly along the axis so that it follows `prev` at the spacing. */
  lemma DistributeStepPlaces(prev: Node, cur: Node, axis: Axis, measure: Measure, spacing: real)
    requires DistributeStep(prev, cur, axis, measure, spacing).Ok?
    ensures var m := DistributeStep(prev, cur, axis, measure, spacing).value;
      && MovedAlong(cur, m, axis, DistributeShift(BBox(prev).value, BBox(cur).value, axis, measure, spacing))
      && ShiftedAlong(cur, m, axis)
      && Measurable(m) && Movable(m)
      && Spaced(BBox(prev).value, BBox(m).value, axis, measure, spacing)
  {
    var d := DistributeShift(BBox(prev).value, BBox(cur).value, axis, measure, spacing);
    TranslateAlongMoves(cur, axis, d);
    DistributeShiftSpaces(BBox(prev).value, BBox(cur).value, axis, measure, spacing);
  }

  /**
   * The list after the steps for elements `i`, `i + 1`, ... have run on
   * `s`, and how the run ended: the first failing step stops the run and
   * leaves the elements from it onwards as they were.
   */
  function DistributeFrom(s: seq<Node>, i: nat, axis: Axis, measure: Measure, spacing: real): (r: (seq<Node>, Outcome))
    requires 1 <= i
    ensures |r.0| == |s|
    decreases |s| - i
  {
    if i >= |s| then (s, Pass)
    else match DistributeStep(s[i - 1], s[i], axis, measure, spacing)
      case Err(e) => (s, Fail(e))
      case Ok(m) => DistributeFrom(s[i := m], i + 1, axis, measure, spacing)
  }

  /** The four `distribute_*_with_spacing` operations on a list, as a value: the new list and how the run ended. */
  function Distributed(s: seq<Node>, axis: Axis, measure: Measure, spacing: real): (seq<Node>, Outcome) {
    DistributeFrom(s, 1, axis, measure, spacing)
  }

  /**
   * The four `distribute_*_with_spacing` operations. For each element after
   * the first, in order: its box is computed, then its predecessor's (which
   * has already been moved), and it is translated along the axis so that it
   * follows its predecessor at `spacing`. The first element never moves. A
   * failing step leaves the elements before it moved and the rest untouched.
   */
  method Distribute(a: array<Node>, axis: Axis, measure: Measure, spacing: real) returns (r: Outcome)
    modifies a
    ensures (a[..], r) == Distributed(old(a[..]), axis, measure, spacing)
    ensures r.Pass? <==> Distributable(old(a[..]))
    ensures r.Pass? ==> SpacedUpTo(a[..], a.Length, axis, measure, spacing)
  {
    ghost var o := a[..];
    if a.Length <= 1 {
      DistributedProperties(o, axis, measure, spacing);
      return Pass;
    }
    var i := 1;
    while i < a.Length
      invariant 1 <= i <= a.Length
      invariant DistributeFrom(a[..], i, axis, measure, spacing) == Distributed(o, axis, measure, spacing)
    {
      var t := DistributeStep(a[i - 1], a[i], axis, measure, spacing);
      if t.Err? {
        DistributedProperties(o, axis, measure, spacing);
        return Fail(t.error);
      }
      a[i] := t.value;
      i := i + 1;
    }
    DistributedProperties(o, axis, measure, spacing);
    return Pass;
  }

  /** A run from step `i` keeps the length and the first `i` elements, and moves every element along the axis only. */
  lemma {:induction false} DistributeFromMovesAlong(s: seq<Node>, i: nat, axis: Axis, measure: Measure, spacing: real)
    requires 1 <= i <= |s|
    ensures var t := DistributeFrom(s, i, axis, measure, spacing).0;
      && |t| == |s| && t[..i] == s[..i]
      && (forall j :: 0 <= j < |s| ==> ShiftedAlong(s[j], t[j], axis))
    decreases |s| - i
  {
    var step := if i < |s| then DistributeStep(s[i - 1], s[i], axis, measure, spacing) else Err(EmptyComposite);
    if i == |s| || step.Err? {
      forall j | 0 <= j < |s| ensures ShiftedAlong(s[j], s[j], axis) {
        TranslateAlongZero(s[j], axis);
      }
    } else {
      var m := step.value;
      DistributeStepPlaces(s[i - 1], s[i], axis, measure, spacing);
      var s' := s[i := m];
      DistributeFromMovesAlong(s', i + 1, axis, measure, spacing);
      var t := DistributeFrom(s', i + 1, axis, measure, spacing).0;
      assert DistributeFrom(s, i, axis, measure, spacing).0 == t;
      assert t[..i] == s[..i] by {
        assert t[..i] == t[..i + 1][..i] && s[..i] == s'[..i + 1][..i];
      }
      forall j | 0 <= j < |s| ensures ShiftedAlong(s[j], t[j], axis) {
        if j == i {
          assert t[..i + 1][i] == s'[i];
        } else {
          assert s'[j] == s[j];
        }
      }
    }
  }

  /**
   * A run from step `i` passes exactly when every remaining element has a
   * box and can be moved, and so does the element before them.
   */
  lemma {:induction false} DistributeFromPasses(s: seq<Node>, i: nat, axis: Axis, measure: Measure, spacing: real)
    requires 1 <= i <= |s|
    requires i > 1 ==> Measurable(s[i - 1])
    ensures DistributeFrom(s, i, axis, measure, spacing).1.Pass?
      <==> (i < |s| ==> Measurable(s[i - 1])) && forall j :: i <= j < |s| ==> Measurable(s[j]) && Movable(s[j])
    decreases |s| - i
  {
    if i < |s| {
      var step := DistributeStep(s[i - 1], s[i], axis, measure, spacing);
      if step.Ok? {
        DistributeStepPlaces(s[i - 1], s[i], axis, measure, spacing);
        var s' := s[i := step.value];
        DistributeFromPasses(s', i + 1, axis, measure, spacing);
        assert forall j :: i + 1 <= j < |s| ==> s'[j] == s[j];
      }
    }
  }

  /** A passing run from step `i` after a laid-out prefix lays out the whole list. */
  lemma {:induction false} DistributeFromLaysOut(s: seq<Node>, i: nat, axis: Axis, measure: Measure, spacing: real)
    requires 1 <= i <= |s|
    requires SpacedUpTo(s, i, axis, measure, spacing)
    ensures var (t, r) := DistributeFrom(s, i, axis, measure, spacing);
      r.Pass? ==> SpacedUpTo(t, |t|, axis, measure, spacing)
    decreases |s| - i
  {
    if i < |s| {
      var step := DistributeStep(s[i - 1], s[i], axis, measure, spacing);
      if step.Ok? {
        if i > 1 {
          assert SpacedAt(s, i - 1, axis, measure, spacing);
        }
        DistributeStepPlaces(s[i - 1], s[i], axis, measure, spacing);
        SpacedUpToExtend(s, i, step.value, axis, measure, spacing);
        DistributeFromLaysOut(s[i := step.value], i + 1, axis, measure, spacing);
      }
    }
  }

  /**
   * A failing run from step `i` after a laid-out prefix stops at some `k`:
   * the elements from `k` on are untouched and the ones before it laid out.
   */
  lemma {:induction false} DistributeFromStops(s: seq<Node>, i: nat, axis: Axis, measure: Measure, spacing: real)
    requires 1 <= i <= |s|
    requires SpacedUpTo(s, i, axis, measure, spacing)
    ensures var (t, r) := DistributeFrom(s, i, axis, measure, spacing);
      r.Fail? ==> exists k :: i <= k < |s| && t[k..] == s[k..] && SpacedUpTo(t, k, axis, measure, spacing)
    decreases |s| - i
  {
    if i < |s| {
      var step := DistributeStep(s[i - 1], s[i], axis, measure, spacing);
      if step.Err? {
        assert DistributeFrom(s, i, axis, measure, spacing).0[i..] == s[i..];
      } else {
        if i > 1 {
          assert SpacedAt(s, i - 1, axis, measure, spacing);
        }
        DistributeStepPlaces(s[i - 1], s[i], axis, measure, spacing);
        SpacedUpToExtend(s, i, step.value, axis, measure, spacing);
        var s' := s[i := step.value];
        DistributeFromStops(s', i + 1, axis, measure, spacing);
        var (t, r) := DistributeFrom(s', i + 1, axis, measure, spacing);
        if r.Fail? {
          var k :| i + 1 <= k < |s'| && t[k..] == s'[k..] && SpacedUpTo(t, k, axis, measure, spacing);
          assert s'[k..] == s[k..];
        }
      }
    }
  }

  /**
   * A distribution keeps the length and the first element, moves every
   * element along the axis only, passes exactly on the lists where it is
   * defined, lays out the whole list when it passes and, when it fails,
   * lays out a prefix and leaves the rest untouched.
   */
  lemma DistributedProperties(s: seq<Node>, axis: Axis, measure: Measure, spacing: real)
    ensures var (t, r) := Distributed(s, axis, measure, spacing);
      && |t| == |s| && (|s| > 0 ==> t[0] == s[0])
      && (|s| <= 1 ==> t == s && r == Pass)
      && (forall j :: 0 <= j < |s| ==> ShiftedAlong(s[j], t[j], axis))
      && (r.Pass? <==> Distributable(s))
      && (r.Pass? ==> SpacedUpTo(t, |t|, axis, measure, spacing))
      && (r.Fail? ==> exists k :: 1 <= k < |s| && t[k..] == s[k..] && SpacedUpTo(t, k, axis, measure, spacing))
  {
    if |s| == 0 {
    } else {
      DistributeFromMovesAlong(s, 1, axis, measure, spacing);
      DistributeFromPasses(s, 1, axis, measure, spacing);
      DistributeFromLaysOut(s, 1, axis, measure, spacing);
      DistributeFromStops(s, 1, axis, measure, spacing);
      var t := Distributed(s, axis, measure, spacing).0;
      assert t[..1][0] == t[0];
    }
  }

  /** Laying out element `i` after a prefix already laid out extends the prefix by one. */
  lemma SpacedUpToExtend(s: seq<Node>, i: nat, m: Node, axis: Axis, measure: Measure, spacing: real)
    requires 1 <= i < |s|
    requires SpacedUpTo(s, i, axis, measure, spacing)
    requires Measurable(s[i - 1]) && Measurable(m)
    requires Spaced(BBox(s[i - 1]).value, BBox(m).value, axis, measure, spacing)
    ensures SpacedUpTo(s[i := m], i + 1, axis, measure, spacing)
  {
    var s' := s[i := m];
    forall j | 1 <= j < i + 1 ensures SpacedAt(s', j, axis, measure, spacing) {
      if j < i {
        assert SpacedAt(s, j, axis, measure, spacing);
        assert s'[j - 1] == s[j - 1] && s'[j] == s[j];
      } else {
        assert s'[j - 1] == s[i - 1] && s'[j] == m;
      }
    }
  }

  /** A translation by zero along either axis is a rigid move by zero. */
  lemma TranslateAlongZero(n: Node, axis: Axis)
    ensures MovedAlong(n, n, axis, 0.0) && ShiftedAlong(n, n, axis)
  {
    assert ShiftPoints(Points(n), 0.0, 0.0) == Points(n);
    assert MovedBy(n, n, 0.0, 0.0);
    assert MovedAlong(n, n, axis, 0.0);
  }

  // ---------------------------------------------------------------------
  // align_*

  /** Which coordinate of each element's box is set to the common value. */
  datatype Edge = Lefts | Rights | Tops | Bottoms | CentersX | CentersY

  function EdgeAxis(e: Edge): Axis {
    match e
    case Lefts => Horizontal
    case Rights => Horizontal
    case CentersX => Horizontal
    case Tops => Vertical
    case Bottoms => Vertical
    case CentersY => Vertical
  }

  /** The coordinate of a box that an alignment sets. */
  function EdgeValue(b: Box, e: Edge): real {
    match e
    case Lefts => b.topLeft.x
    case Rights => b.bottomRight.x
    case Tops => b.topLeft.y
    case Bottoms => b.bottomRight.y
    case CentersX => MidwayCoords(b.topLeft, b.bottomRight).x
    case CentersY => MidwayCoords(b.topLeft, b.bottomRight).y
  }

  /** The distance along the edge's axis from the chosen coordinate of `b` to `v`. */
  function AlignShift(b: Box, e: Edge, v: real): real {
    v - EdgeValue(b, e)
  }

  /**
   * One element of `align_lefts`, `align_rights`, `align_tops`,
   * `align_bottoms`, `align_centers_horizontally` or
   * `align_centers_vertically`: the element is moved along one axis so that
   * the chosen coordinate of its box becomes `v`.
   */
  function AlignOne(n: Node, e: Edge, v: real): (r: Result<Node>)
    ensures r.Ok? <==> Measurable(n) && Movable(n)
    ensures !Measurable(n) ==> r == Err(BBox(n).error)
  {
    var b :- BBox(n);
    TranslateAlong(n, EdgeAxis(e), AlignShift(b, e, v))
  }

  /**
   * After an alignment the chosen coordinate of the element's box is `v`,
   * the box keeps its size, the element moved rigidly along the one axis,
   * and the element can be aligned again.
   */
  lemma AlignOneSets(n: Node, e: Edge, v: real)
    requires AlignOne(n, e, v).Ok?
    ensures var m := AlignOne(n, e, v).value;
      && Measurable(m) && Movable(m)
      && EdgeValue(BBox(m).value, e) == v
      && Width(BBox(m).value) == Width(BBox(n).value) && Height(BBox(m).value) == Height(BBox(n).value)
      && MovedAlong(n, m, EdgeAxis(e), AlignShift(BBox(n).value, e, v))
  {
    var b := BBox(n).value;
    var d := AlignShift(b, e, v);
    TranslateAlongMoves(n, EdgeAxis(e), d);
    var nb := ShiftAlong(b, EdgeAxis(e), d);
    assert BBox(AlignOne(n, e, v).value) == Ok(nb);
    ShiftAlongEdge(b, e, d);
  }

  /**
   * Shifting a box along an edge's axis moves the chosen coordinate by the
   * shift and keeps the box's size and its extent on the other axis.
   */
  lemma ShiftAlongEdge(b: Box, e: Edge, d: real)
    ensures var nb := ShiftAlong(b, EdgeAxis(e), d);
      && EdgeValue(nb, e) == EdgeValue(b, e) + d
      && Width(nb) == Width(b) && Height(nb) == Height(b)
      && (EdgeAxis(e) == Horizontal ==> nb.topLeft.y == b.topLeft.y && nb.bottomRight.y == b.bottomRight.y)
      && (EdgeAxis(e) == Vertical ==> nb.topLeft.x == b.topLeft.x && nb.bottomRight.x == b.bottomRight.x)
  {
  }

  /** Aligning an element that is already aligned leaves it as it is. */
  lemma AlignOneIdempotent(n: Node, e: Edge, v: real)
    requires AlignOne(n, e, v).Ok?
    ensures AlignOne(AlignOne(n, e, v).value, e, v) == AlignOne(n, e, v)
  {
    var m := AlignOne(n, e, v).value;
    AlignOneSets(n, e, v);
    assert AlignShift(BBox(m).value, e, v) == 0.0;
    TranslateZero(m);
  }

  /** The other axis of a box is untouched by an alignment along one axis. */
  lemma AlignOneKeepsOtherAxis(n: Node, e: Edge, v: real)
    requires AlignOne(n, e, v).Ok?
    ensures BBox(AlignOne(n, e, v).value).Ok?
    ensures var b, nb := BBox(n).value, BBox(AlignOne(n, e, v).value).value;
      && (EdgeAxis(e) == Horizontal ==> nb.topLeft.y == b.topLeft.y && nb.bottomRight.y == b.bottomRight.y)
      && (EdgeAxis(e) == Vertical ==> nb.topLeft.x == b.topLeft.x && nb.bottomRight.x == b.bottomRight.x)
  {
    var b := BBox(n).value;
    var d := AlignShift(b, e, v);
    TranslateAlongMoves(n, EdgeAxis(e), d);
    assert BBox(AlignOne(n, e, v).value) == Ok(ShiftAlong(b, EdgeAxis(e), d));
    ShiftAlongEdge(b, e, d);
  }

  /**
   * `align_*(e_lst, v)`: aligns every element in turn. A failing element
   * stops the loop, leaving the elements before it aligned and the rest
   * untouched.
   */
  method Align(a: array<Node>, e: Edge, v: real) returns (r: Outcome)
    modifies a
    ensures r.Pass? <==> forall i :: 0 <= i < a.Length ==> AlignOne(old(a[i]), e, v).Ok?
    ensures r.Pass? ==> forall i :: 0 <= i < a.Length ==> a[i] == AlignOne(old(a[i]), e, v).value
    ensures r.Fail? ==>
      exists k :: (0 <= k < a.Length
        && AlignOne(old(a[k]), e, v) == Err(r.error)
        && (forall j :: 0 <= j < k ==> AlignOne(old(a[j]), e, v).Ok? && a[j] == AlignOne(old(a[j]), e, v).value)
        && a[k..] == old(a[k..]))
  {
    var i := 0;
    while i < a.Length
      invariant 0 <= i <= a.Length
      invariant a[i..] == old(a[i..])
      invariant forall j :: 0 <= j < i ==> AlignOne(old(a[j]), e, v).Ok? && a[j] == AlignOne(old(a[j]), e, v).value
    {
      var t := AlignOne(a[i], e, v);
      if t.Err? {
        return Fail(t.error);
      }
      a[i] := t.value;
      i := i + 1;
    }
    return Pass;
  }

  /**
   * `align_centers_both(e_lst, x, y)`: aligns every centre horizontally on
   * `x`, then every centre vertically on `y`, so that all centres coincide.
   */
  method AlignCentersBoth(a: array<Node>, x: real, y: real) returns (r: Outcome)
    modifies a
    ensures r.Pass? <==> forall i :: 0 <= i < a.Length ==> Measurable(old(a[i])) && Movable(old(a[i]))
    ensures r.Pass? ==> forall i :: 0 <= i < a.Length ==>
              AlignOne(old(a[i]), CentersX, x).Ok? && AlignOne(AlignOne(old(a[i]), CentersX, x).value, CentersY, y) == Ok(a[i])
    ensures r.Pass? ==> forall i :: 0 <= i < a.Length ==> CenterCoords(a[i]) == Ok(Point(x, y))
  {
    ghost var start := a[..];
    r := Align(a, CentersX, x);
    if r.Fail? {
      return;
    }
    ghost var mid := a[..];
    forall i | 0 <= i < a.Length ensures Measurable(mid[i]) && Movable(mid[i]) {
      AlignOneSets(start[i], CentersX, x);
    }
    r := Align(a, CentersY, y);
    if r.Pass? {
      forall i | 0 <= i < a.Length
        ensures AlignOne(AlignOne(start[i], CentersX, x).value, CentersY, y) == Ok(a[i])
        ensures CenterCoords(a[i]) == Ok(Point(x, y))
      {
        assert mid[i] == AlignOne(start[i], CentersX, x).value;
        assert a[i] == AlignOne(mid[i], CentersY, y).value;
        AlignOneSets(start[i], CentersX, x);
        AlignOneSets(mid[i], CentersY, y);
        AlignOneKeepsOtherAxis(mid[i], CentersY, y);
        var b, nb := BBox(mid[i]).value, BBox(a[i]).value;
        assert EdgeValue(b, CentersX) == x;
        assert EdgeValue(nb, CentersX) == x;
        assert EdgeValue(nb, CentersY) == y;
      }
    }
  }
}
