# sane_tikz layout engine, modelled in Dafny

`sane_tikz.py` builds figures as trees of shape records. A record is an open
or closed path, a circle, a circular arc, an ellipse, a Bézier curve, a LaTeX
label or an image. A composite is a non-empty, arbitrarily nested list of
records and composites. Client code moves such a tree around by anchors of
its bounding box and then serialises it to TikZ. This project models the
layout half of the engine and proves what it promises:

- **coordinate algebra** (`coords.dfy`, module `Coords`): midpoints, thirds,
  convex combinations, translations, deltas, reflections, corner and
  edge-centre anchors of the rectangle two points span, the inside test and
  points on a rectangle's edges;
- **shape model** (`shapes.dfy`, module `Shapes`): the record variants, the
  tree, the error cases and reference views of a tree: all of its
  coordinates (`Points`) and everything but its coordinates (`Erase`);
- **bounding boxes** (`bbox.dfy`, module `BBoxes`): `bbox`, `center_coords`
  and `coords_from_bbox_with_fn`, together with the nine anchors of a box;
- **translate and scale** (`transform.dfy`, module `Transform`);
- **placement** (`placement.dfy`, module `Placement`): `translate_to_coords`,
  the nine `translate_bbox_*_to_coords`, `place_above`, `place_below`,
  `place_to_the_left` and `place_to_the_right`, and the twelve
  `place_*_and_align_*`;
- **list layout** (`layout.dfy`, module `Layout`): the four
  `distribute_*_with_spacing` operations and the seven `align_*`
  operations. Each is a method over an `array<Node>` whose loop replaces
  element `i` in place;
- **list builders** (`builders.dfy`, module `Builders`):
  `coords_from_deltas`, its horizontal and vertical variants,
  `coords_on_grid` and `coords_on_irregular_grid`. Each is a loop that
  appends to a list;
- **rectangle primitives** (`primitives.dfy`, module `Primitives`):
  `rectangle`, `square`, the `rectangle_from_*` constructors,
  `rectangle_with_golden_ratio` and `ellipse_from_width_over_height`. The
  plain record constructors (`open_path`, `closed_path`, `circle`,
  `circular_arc`, `ellipse`, `bezier`, `latex`, `image`) are the variants of
  `Shapes.Shape` themselves. Their `tikz_str` becomes the `style` field.

Coordinates are `real`. The placement properties therefore hold exactly,
which the engine's floats achieve only up to rounding. The engine mutates
dictionaries in place. In this model, `translate`, `scale` and the
placement operations are functions from a tree to a new tree, or to an
error. The engine signals failure with exceptions; here failure is a value:

- `EmptyComposite` stands for the failed `len(e) > 0` assertion;
- `EmptyPointList` stands for `min` of an empty path;
- `NotImplementedFor(kind)` stands for the `ValueError` raised for a record
  type that has no case.

The predicates `Measurable` (where `bbox` is defined) and `Movable` (where
`translate` and `scale` are defined) state exactly which trees succeed.

Two behaviours of the engine are kept as written:

- `translate` and `scale` have no case for `circular_arc`, although `bbox`
  has one. So an arc is `Measurable` but not `Movable`.
- `scale` multiplies an ellipse's horizontal radius but not its vertical
  one (see Findings).

## Model

| member | source | states |
|---|---|---|
| Coords.MidwayCoords | sane_tikz.py:49-52 | the result is equally far from both points on each axis |
| Coords.OneThirdCoords | sane_tikz.py:55-59 | the result splits the segment 1:2 on each axis |
| Coords.TwoThirdsCoords | sane_tikz.py:62-66 | the result splits the segment 2:1 on each axis |
| Coords.ConvexCombinationCoords | sane_tikz.py:109-111 | the offset from `from` is `alpha` times the offset to `to`; alpha 0 and 1 give the endpoints |
| Coords.MidwaySymmetric | sane_tikz.py:49-52 | the midpoint does not depend on the order of the points |
| Coords.FractionsAreConvexCombinations | sane_tikz.py:49-66 | midway, one third and two thirds are the convex combinations at 1/2, 1/3 and 2/3 |
| Coords.ConvexCombinationBetween | sane_tikz.py:109-111 | for alpha in [0, 1] the point lies between the endpoints on each axis |
| Coords.TopLeftCoords | sane_tikz.py:69-70 | leftmost x and topmost y of the two points, each taken from one of them |
| Coords.TopRightCoords | sane_tikz.py:73-74 | rightmost x and topmost y of the two points, each taken from one of them |
| Coords.BottomLeftCoords | sane_tikz.py:77-78 | leftmost x and lowest y of the two points, each taken from one of them |
| Coords.BottomRightCoords | sane_tikz.py:81-82 | rightmost x and lowest y of the two points, each taken from one of them |
| Coords.LeftCenterCoords | sane_tikz.py:85-88 | on the left edge, halfway between the bottom-left and top-left corners |
| Coords.RightCenterCoords | sane_tikz.py:91-94 | on the right edge, halfway between the bottom-right and top-right corners |
| Coords.TopCenterCoords | sane_tikz.py:97-100 | on the top edge, halfway between the top-left and top-right corners |
| Coords.BottomCenterCoords | sane_tikz.py:103-106 | on the bottom edge, halfway between the bottom-left and bottom-right corners |
| Coords.CornersNormalise | sane_tikz.py:69-82 | the corner helpers normalise any two points into an ordered pair; normalising again changes nothing; the order of the arguments does not matter |
| Coords.OrderedCorners | sane_tikz.py:69-82 | for an ordered pair the helpers return the given corners and the two mixed corners |
| Coords.TranslateCoords | sane_tikz.py:114-115 | the result differs from the point by exactly (dx, dy) |
| Coords.TranslateCoordsHorizontally | sane_tikz.py:118-119 | a horizontal move is a translation with no vertical component |
| Coords.TranslateCoordsVertically | sane_tikz.py:122-123 | a vertical move is a translation with no horizontal component |
| Coords.TranslateCoordsDiagonally | sane_tikz.py:126-127 | a diagonal move is a translation by the same amount on both axes |
| Coords.TranslateCoordsAntidiagonally | sane_tikz.py:130-131 | an antidiagonal move is a translation by opposite amounts on the two axes |
| Coords.TranslateCoordsCompose | sane_tikz.py:114-115 | two translations are one by the summed deltas; translating back undoes a translation |
| Coords.DeltaX | sane_tikz.py:134-135 | moving the start horizontally by the result reaches the end's abscissa |
| Coords.DeltaY | sane_tikz.py:138-139 | moving the start vertically by the result reaches the end's ordinate |
| Coords.Deltas | sane_tikz.py:142-143 | translating the start by the deltas reaches the end |
| Coords.DeltasOfTranslation | sane_tikz.py:142-143 | the deltas of a translated point are the translation |
| Coords.XLength | sane_tikz.py:226-228 | non-negative and equal to the horizontal difference up to sign |
| Coords.YLength | sane_tikz.py:231-233 | non-negative and equal to the vertical difference up to sign |
| Coords.LengthsSymmetric | sane_tikz.py:216-233 | the lengths do not depend on the vector's direction |
| Coords.ReflectCoordsHorizontally | sane_tikz.py:174-175 | the axis is halfway between the point and its image; y is kept |
| Coords.ReflectCoordsVertically | sane_tikz.py:178-179 | the axis is halfway between the point and its image; x is kept |
| Coords.ReflectVectorHorizontally | sane_tikz.py:182-187 | each endpoint keeps its height, and the vertical axis lies halfway between it and its image |
| Coords.ReflectVectorVertically | sane_tikz.py:190-195 | each endpoint keeps its abscissa, and the horizontal axis lies halfway between it and its image |
| Coords.ReflectionInvolution | sane_tikz.py:174-195 | reflecting twice is the identity; a reflection negates one difference and keeps the other |
| Coords.AreCoordsInsideRectangle | sane_tikz.py:1057-1059 | a point is inside exactly when the corners are ordered and joining the point to them moves neither corner outward |
| Coords.InsideOnlyWhenOrdered | sane_tikz.py:1057-1059 | a point can be inside only when the given corners are ordered |
| Coords.CoordsOnTopEdge | sane_tikz.py:1080-1083 | on the top edge at fraction alpha; alpha 0 and 1 give the top corners |
| Coords.CoordsOnBottomEdge | sane_tikz.py:1086-1089 | on the bottom edge at fraction alpha; alpha 0 and 1 give the bottom corners |
| Coords.CoordsOnLeftEdge | sane_tikz.py:1092-1095 | on the left edge at fraction alpha, from the bottom; alpha 0 and 1 give the left corners |
| Coords.CoordsOnRightEdge | sane_tikz.py:1098-1101 | on the right edge at fraction alpha, from the bottom; alpha 0 and 1 give the right corners |
| Coords.EdgeCoordsInside | sane_tikz.py:1080-1101 | for alpha in [0, 1] every edge point is inside the rectangle |
| Coords.AnchorsInside | sane_tikz.py:69-106 | every corner, edge centre and the centre of an ordered rectangle is inside it |
| Shapes.ShiftPoints | sane_tikz.py:326-352 | same length, and every point moved by exactly (dx, dy) |
| Shapes.ShiftPointsAppend | sane_tikz.py:323-324 | shifting a concatenation shifts each part |
| BBoxes.Join | sane_tikz.py:261-271 | the combined box encloses both boxes; each side is one of theirs; well-formedness is kept |
| BBoxes.PathBox | sane_tikz.py:273-276 | a path's box is well-formed and contains every point |
| BBoxes.PathBoxTight | sane_tikz.py:273-276 | every side of a path's box is touched by some point |
| BBoxes.ShapeBox | sane_tikz.py:273-307 | defined exactly for recognised records with points; otherwise the matching error |
| BBoxes.ShapeBoxGeometry | sane_tikz.py:278-304 | circle and arc boxes are centred with side 2r; ellipse boxes are 2rx by 2ry; a latex box is its anchor; an image box starts at its top-left with its width and height; a Bézier box is the box of the two endpoints alone, ignoring the control points |
| BBoxes.BBox | sane_tikz.py:260-309 | defined exactly on measurable trees; well-formed when no size is negative; an empty list fails as an empty composite |
| BBoxes.BBoxAll | sane_tikz.py:261-271 | defined exactly when every child is measurable; encloses every child's box |
| BBoxes.BBoxAllExtremal | sane_tikz.py:261-271 | each side of a list's box is the extreme side of some child's box |
| BBoxes.AnchorCoords | sane_tikz.py:69-106 | whatever the order of the two corners given, each anchor lies in the rectangle they span |
| BBoxes.BoxAnchor | sane_tikz.py:69-106 | on a well-formed box, the anchor read off the stored corners equals the helper applied to them |
| BBoxes.AnchorsFollowShift | sane_tikz.py:69-106 | shifting a box shifts each of its anchors by the same amount |
| BBoxes.CenterCoords | sane_tikz.py:312-313 | defined exactly on measurable trees; equally far from opposite sides of the box |
| BBoxes.CoordsFromBBox | sane_tikz.py:316-317 | defined exactly on measurable trees; each anchor lies inside the rectangle spanned by the box's normalised corners; on a well-formed box it is the box's own anchor |
| Transform.TranslateShape | sane_tikz.py:326-355 | fails exactly on arcs and unrecognised records, with the record's type |
| Transform.Translate | sane_tikz.py:320-355 | succeeds exactly on movable trees |
| Transform.TranslateAll | sane_tikz.py:321-324 | succeeds exactly when every child is movable; translates each child |
| Transform.TranslateMovesEveryPoint | sane_tikz.py:320-355 | every coordinate moves by (dx, dy); types, styles, radii, sizes, text, nesting and list lengths are unchanged |
| Transform.TranslateStaysMovable | sane_tikz.py:320-355 | a translated tree can be translated again |
| Transform.PointsAllShift | sane_tikz.py:321-324 | children shifted one by one give the list's points shifted |
| Transform.TranslateShiftsBBox | sane_tikz.py:320-355 | the box after a translation is the old box shifted by (dx, dy) |
| Transform.PathBoxShift | sane_tikz.py:273-276 | a shifted path's box is its box shifted |
| Transform.BBoxAllShift | sane_tikz.py:261-271 | children whose boxes shifted give the list's box shifted |
| Transform.JoinShift | sane_tikz.py:261-271 | combining shifted boxes gives the combined box shifted |
| Transform.TranslateCompose | sane_tikz.py:320-355 | two translations equal one by the summed deltas |
| Transform.TranslateAllPointwise | sane_tikz.py:321-324 | lists whose children translate alike translate alike |
| Transform.TranslateZero | sane_tikz.py:320-355 | translating a movable tree by zero leaves it as it is |
| Transform.TranslateInverse | sane_tikz.py:320-355 | translating back by (-dx, -dy) restores the tree |
| Transform.ScaleCoordsLinear | sane_tikz.py:398-399 | a scaled point is the fraction alpha of the way from the origin to the point; scalings compose by multiplying factors; scaling a translated point scales the translation |
| Transform.ScaleShape | sane_tikz.py:367-395 | fails exactly on arcs and unrecognised records, naming the type; keeps the type and the style; scales every coordinate, a circle's radius and an image's height and width; keeps the text and the file path; scales an ellipse's horizontal radius and keeps its vertical radius |
| Transform.Scale | sane_tikz.py:361-395 | succeeds exactly on movable trees |
| Transform.ScaleUniformWithoutEllipses | sane_tikz.py:361-395 | on a tree without ellipses, scaling gives exactly the uniform scaling: same successes, errors and results |
| Transform.ScaleAllUniformWithoutEllipses | sane_tikz.py:361-395 | the same for a list of trees without ellipses |
| Transform.ScaleScalesBBoxWithoutEllipses | sane_tikz.py:361-395 | on a tree without ellipses, scaling by alpha >= 0 scales the box |
| Transform.ScaleAll | sane_tikz.py:362-365 | succeeds exactly when every child is movable; scales each child |
| Transform.ScaleScalesEveryPoint | sane_tikz.py:361-395 | every coordinate of the tree is multiplied by alpha |
| Transform.ScaleAllPoints | sane_tikz.py:362-365 | children scaled one by one give the list's points scaled |
| Transform.ScaleKeepsEllipseHeight | sane_tikz.py:377-379 | scaling an ellipse scales its box's width but not its height |
| Transform.ScaleEllipseCounterexample | sane_tikz.py:377-379 | an ellipse with both radii 1, anywhere, scaled by 2 does not have the scaled box |
| Transform.ScaleShapeUniformly | sane_tikz.py:367-395 | corrected record scaling: defined exactly on movable records |
| Transform.ScaleUniformly | sane_tikz.py:361-395 | corrected scaling: defined exactly on movable trees |
| Transform.ScaleAllUniformly | sane_tikz.py:362-365 | corrected scaling of a list: each child scaled |
| Transform.JoinMap | sane_tikz.py:261-271 | a monotone map commutes with combining boxes |
| Transform.JoinScale | sane_tikz.py:261-271 | scaling by alpha >= 0 commutes with combining boxes |
| Transform.PathBoxScale | sane_tikz.py:273-276 | a scaled path's box is its box scaled |
| Transform.PathBoxScaleStep | sane_tikz.py:273-276 | the box of a scaled path joins its scaled first point with the box of its scaled rest |
| Transform.ScaleUniformlyScalesBBox | sane_tikz.py:361-395 | with the ellipse corrected, scaling by alpha >= 0 scales the box |
| Transform.ShapeBoxScalesUniformly | sane_tikz.py:367-395 | with the ellipse corrected, a record's box scales with it |
| Transform.BezierBoxScales | sane_tikz.py:381-385 | a scaled Bézier curve's box is its box scaled |
| Transform.CornersMap | sane_tikz.py:69-82 | a monotone map commutes with the top-left and bottom-right helpers |
| Transform.ScaleMonotone | sane_tikz.py:398-399 | multiplying by alpha >= 0 is monotone |
| Transform.CircleBoxScales | sane_tikz.py:373-375 | a scaled circle's box is its box scaled |
| Transform.EllipseBoxScales | sane_tikz.py:377-379 | with both radii scaled, an ellipse's box is its box scaled |
| Transform.ImageBoxScales | sane_tikz.py:390-393 | a scaled image's box is its box scaled |
| Transform.BBoxAllScale | sane_tikz.py:261-271 | children whose boxes scaled give the list's box scaled |
| Placement.TranslateToCoords | sane_tikz.py:410-412 | succeeds exactly on movable trees |
| Placement.TranslateToCoordsMoves | sane_tikz.py:410-412 | the tree moves rigidly by the deltas of the vector from `from` to `to`, and its box with it |
| Placement.TranslateBBoxAnchorToCoords | sane_tikz.py:415-464 | succeeds exactly on measurable, movable trees; the box error comes first |
| Placement.AnchorLandsOnCoords | sane_tikz.py:415-464 | for each of the nine anchors, the anchor of the new box is the target; the box keeps its size; the move is rigid |
| Placement.BesideShiftPlaces | sane_tikz.py:467-492 | the shift puts the box beside the reference at the spacing and moves one axis only; a box already in place is not moved |
| Placement.PlaceBeside | sane_tikz.py:467-492 | succeeds exactly when the reference is measurable and the tree is measurable and movable; the reference's box error comes first |
| Placement.PlaceBesideGap | sane_tikz.py:467-492 | above: new bottom = reference top + spacing, and so on for each side; the size is kept; only the one axis moves |
| Placement.PlaceBesideIdempotent | sane_tikz.py:467-492 | placing an already placed tree again changes nothing |
| Placement.PlaceAligned | sane_tikz.py:505-577 | succeeds exactly when the reference is measurable and the tree is measurable and movable; errors in the engine's order |
| Placement.AlignedBoxGeometry | sane_tikz.py:505-577 | the target box is beside the reference at the spacing and lined up on the chosen edge or centre |
| Placement.PlaceAlignedGeometry | sane_tikz.py:505-577 | each of the twelve variants makes its anchor pair coincide, offset by the spacing; the size is kept |
| Layout.TranslateAlong | sane_tikz.py:402-407 | defined exactly on movable trees; moves the tree rigidly along the axis by the distance and not at all along the other |
| Layout.TranslateAlongMoves | sane_tikz.py:402-407 | a translation along one axis is rigid along that axis, keeps the tree movable and shifts its box |
| Layout.DistributeShiftSpaces | sane_tikz.py:581-619 | shifting by the computed delta spaces the box after its predecessor; a box already spaced is not moved |
| Layout.DistributeStep | sane_tikz.py:582-588 | one step succeeds exactly when both boxes exist and the element is movable; box errors come in the engine's order |
| Layout.DistributeStepPlaces | sane_tikz.py:582-588 | a successful step moves the element along the axis only, to the spacing after its predecessor |
| Layout.Distribute | sane_tikz.py:581-619 | the new array and outcome are `Distributed` of the old contents; it passes exactly on distributable lists, and then every consecutive pair is spaced |
| Layout.DistributeFrom | sane_tikz.py:581-619 | a run from position i keeps the list's length |
| Layout.DistributeFromMovesAlong | sane_tikz.py:581-619 | a run keeps the length and the processed prefix, and moves every element along the axis only |
| Layout.DistributeFromPasses | sane_tikz.py:581-619 | a run passes exactly when every remaining element has a box and is movable |
| Layout.DistributeFromLaysOut | sane_tikz.py:581-619 | a passing run spaces every consecutive pair |
| Layout.DistributeFromStops | sane_tikz.py:581-619 | a failing run leaves a spaced prefix and the rest untouched |
| Layout.DistributedProperties | sane_tikz.py:581-619 | the first element never moves; lists of length 0 or 1 are unchanged; every element moves only along the axis; pass iff distributable; pass gives every pair spaced |
| Layout.SpacedUpToExtend | sane_tikz.py:581-619 | laying out the next element extends the spaced prefix |
| Layout.TranslateAlongZero | sane_tikz.py:402-407 | a zero move along an axis is a rigid move along it |
| Layout.AlignOne | sane_tikz.py:622-660 | one element's alignment succeeds exactly on measurable, movable trees |
| Layout.AlignOneSets | sane_tikz.py:622-660 | the chosen edge or centre of the new box equals the target; the size is kept; the move is along one axis |
| Layout.AlignOneIdempotent | sane_tikz.py:622-660 | aligning twice is the same as aligning once |
| Layout.AlignOneKeepsOtherAxis | sane_tikz.py:622-660 | the box's extent on the other axis is unchanged |
| Layout.Align | sane_tikz.py:622-660 | passes exactly when every element can be aligned, and then every element is aligned; a failure leaves an aligned prefix and the rest untouched |
| Layout.AlignCentersBoth | sane_tikz.py:634-636 | passes exactly when every element is measurable and movable; then each element is its original aligned horizontally on x and then vertically on y, and every centre is (x, y) |
| Builders.SumSnoc | sane_tikz.py:1145-1170 | a running sum grows by the next element |
| Builders.SumConstant | sane_tikz.py:1183-1191 | n copies of w sum to n times w |
| Builders.SumDeltasSnoc | sane_tikz.py:1145-1151 | a running displacement grows by the next displacement |
| Builders.CoordsFromDeltas | sane_tikz.py:1145-1151 | one more point than deltas, starting at `start`; each point is the previous one moved by the next delta; point k is `start` moved by the sum of the first k deltas |
| Builders.CoordsFromHorizontalDeltas | sane_tikz.py:1154-1160 | as above with horizontal moves; every point keeps the start's y |
| Builders.CoordsFromVerticalDeltas | sane_tikz.py:1163-1169 | as above with vertical moves; every point keeps the start's x |
| Builders.GridSpacing | sane_tikz.py:1172-1180 | neighbours in a row are one cell width apart at the same height; neighbours in a column are one cell height apart at the same x |
| Builders.CoordsOnGrid | sane_tikz.py:1172-1180 | (rows + 1) by (columns + 1) points, none for a negative count; point (i, j) is j widths right of and i heights below the top-left corner, which is the first point |
| Builders.IrregularGridGeneralisesGrid | sane_tikz.py:1172-1191 | with equal widths and heights the irregular grid is the regular grid |
| Builders.CoordsOnIrregularGrid | sane_tikz.py:1183-1191 | one row more than row heights and one point more per row than column widths; point (i, j) is offset by the first j widths and the first i heights |
| Primitives.Rectangle | sane_tikz.py:759-764 | a closed path with the given style through `tl`, the top-right corner, `br` and the bottom-left corner; for ordered corners these are (br.x, tl.y) and (tl.x, br.y) |
| Primitives.RectangleBox | sane_tikz.py:759-764 | the box is spanned by the normalised corners; for ordered corners it is exactly (tl, br) |
| Primitives.Square | sane_tikz.py:767-769 | a closed path of four points starting at `tl` |
| Primitives.SquareBox | sane_tikz.py:767-769 | the box's width and height both equal the absolute side; a non-negative side starts at `tl` |
| Primitives.RectangleFromWidthAndHeight | sane_tikz.py:900-902 | a closed path of four points starting at `tl` |
| Primitives.RectangleFromWidthAndHeightBox | sane_tikz.py:900-902 | the box has the absolute width and height; non-negative sizes start at `tl` |
| Primitives.RectangleFromWidthOverHeight | sane_tikz.py:894-897 | a closed path of four points starting at `tl` |
| Primitives.RectangleFromWidthOverHeightBox | sane_tikz.py:894-897 | the box is as tall as the height's absolute value and as wide as that of `ratio * height`; for non-negative height and ratio it starts at `tl` |
| Primitives.RectangleWithGoldenRatio | sane_tikz.py:905-907 | a closed path of four points starting at `tl` |
| Primitives.RectangleWithGoldenRatioBox | sane_tikz.py:905-907 | whatever the sign of the height, the box is the golden ratio times as wide as it is tall; for a non-negative height it starts at `tl` |
| Primitives.RectangleFromAdditiveResizing | sane_tikz.py:910-917 | a closed path |
| Primitives.AdditiveResizingBox | sane_tikz.py:910-917 | the box grows by delta_x and delta_y and keeps its centre |
| Primitives.RectangleFromMultiplicativeResizing | sane_tikz.py:920-934 | a closed path |
| Primitives.ResizeInterval | sane_tikz.py:920-934 | scaling an interval's ends about its midpoint keeps them ordered, scales the length and keeps the midpoint |
| Primitives.ResizeCorners | sane_tikz.py:920-934 | resizing both corners of an ordered rectangle keeps them ordered, scales each side and keeps the centre |
| Primitives.MultiplicativeResizingBox | sane_tikz.py:920-934 | the box is alpha_x times as wide, alpha_y times as tall and keeps its centre |
| Primitives.EllipseFromWidthOverHeight | sane_tikz.py:799-804 | an ellipse at `c` with the given vertical radius |
| Primitives.EllipseFromWidthOverHeightBox | sane_tikz.py:799-804 | the box is centred at `c`, twice the vertical radius tall, and ratio times as wide as tall |

## Left out

- Trigonometry and angles are not modelled. This covers rotations, `coords_on_circle`, the angle of a vector, `ortogonal_vector`, `polygon`, `equilateral_triangle`, `line_segment_between_circles`, the angle-based `bezier_with_*` constructors and `coords_on_rectangle`. They are transcendental floating-point functions with nothing exact to state.
- `length` (a square root) and the angle normalisation (a float `floor`) are not modelled.
- `horizontal_guidelines`, `vertical_guidelines` and `guidelines` are not modelled. They count lines with a float `ceil`.
- Serialisation to TikZ and the file write (`draw_to_tikz`, `draw_to_tikz_standalone`, `write_textfile`) are not modelled. They are output formatting and I/O.
- The stubs that only raise are not modelled: `rgb_to_hex`, `hex_to_rgb`, `scale_to_length`, `coords_on_ellipse` and `coords_on_bezier`.
- `copy` (a deep copy) and the point and centimetre conversions are not modelled. A value has no identity to copy here.
- The helpers outside the layout core are not modelled: the line-segment and orthogonal-connector constructors, the remaining `bezier_with_*` constructors, ticks, `arrow`, `coords_on_line_*` and the axis-to-canvas conversions. Each builds on the coordinate helpers that are modelled.
- `place_relative_to_at_angle_with_fns` is not modelled, because it needs angles.
- Aliasing: the engine's lists share the trees they hold, so the same tree can appear twice in a list or in two lists. Here trees are values. The elements of a distributed or aligned array are therefore always disjoint, and overlapping lists cannot be expressed.
- Partial updates within one `translate` or `scale` are not modelled. When a record deep inside a composite raises, the engine has already moved the records before it. `Transform.Translate` and `Transform.Scale` return an error instead and produce no tree. For the list operations, the elements updated before a failing one are modelled.
- Layout.Distribute: its contract and `Layout.DistributedProperties` do not say which error a failing run reports. `Layout.DistributeStep` states the box errors' order.
- Placement.PlaceAlignedGeometry: stated only for trees without negative radii, widths or heights. For such trees the box is well-formed, and its anchors are read off the box the way the engine reads them.
- Layout.AlignCentersBoth: when it fails, its contract does not say which elements were already moved.
- Transform.ScaleUniformlyScalesBBox: stated only for alpha >= 0. A negative factor swaps the box's sides, and the engine's box does not describe that.

## Findings

| source | as written | input that shows it | evidently intended | confidence | as-written member | corrected member |
|---|---|---|---|---|---|---|
| sane_tikz.py:377-379 | `scale` multiplies an ellipse's `horizontal_radius` by alpha and leaves `vertical_radius` unchanged, so the ellipse is stretched horizontally rather than scaled | an ellipse with both radii 1 centred at the origin, scaled by 2: the box becomes [[-2, 1], [2, -1]] instead of [[-2, 2], [2, -2]] | both radii multiplied by alpha, like the circle's radius and the image's width and height, so that the box scales with the shape | not executed | Transform.ScaleEllipseCounterexample | Transform.ScaleUniformlyScalesBBox |
