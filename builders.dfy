/**
 * Builders of coordinate lists: polylines from successive displacements
 * and the corner points of regular and irregular grids. Each builder is a
 * loop that appends to a list; here each is a method that returns the list
 * and is proved against a closed form in terms of running sums.
 */
module Builders {
  import opened Coords

  /** The sum of a list of reals, adding from the front. */
  function Sum(xs: seq<real>): real
    decreases |xs|
  {
    if |xs| == 0 then 0.0 else Sum(xs[..|xs| - 1]) + xs[|xs| - 1]
  }

  /** Extending a list by one element adds that element to its sum. */
  lemma SumSnoc(xs: seq<real>, k: nat)
    requires k < |xs|
    ensures Sum(xs[..k + 1]) == Sum(xs[..k]) + xs[k]
  {
    assert xs[..k + 1][..k] == xs[..k];
  }

  /** A list of `n` copies of `w` sums to `n * w`. */
  lemma {:induction false} SumConstant(n: nat, w: real)
    ensures Sum(seq(n, _ => w)) == n as real * w
  {
    if n > 0 {
      assert seq(n, _ => w)[..n - 1] == seq(n - 1, _ => w);
      SumConstant(n - 1, w);
    }
  }

  /** The total displacement of a list of displacements, adding from the front. */
  function SumDeltas(ds: seq<(real, real)>): (real, real)
    decreases |ds|
  {
    if |ds| == 0 then (0.0, 0.0)
    else
      var (x, y) := SumDeltas(ds[..|ds| - 1]);
      (x + ds[|ds| - 1].0, y + ds[|ds| - 1].1)
  }

  /** Extending a list of displacements by one adds that displacement to the total. */
  lemma SumDeltasSnoc(ds: seq<(real, real)>, k: nat)
    requires k < |ds|
    ensures SumDeltas(ds[..k + 1]) == (SumDeltas(ds[..k]).0 + ds[k].0, SumDeltas(ds[..k]).1 + ds[k].1)
  {
    assert ds[..k + 1][..k] == ds[..k];
  }

  /**
   * `coords_from_deltas(start, deltas)`: the points visited starting at
   * `start` and following each displacement in turn. Point `k` is `start`
   * moved by the sum of the first `k` displacements, and each point is the
   * previous one moved by the next displacement.
   */
  method CoordsFromDeltas(start: Point, deltas: seq<(real, real)>) returns (r: seq<Point>)
    ensures |r| == |deltas| + 1 && r[0] == start
    ensures forall k :: 1 <= k < |r| ==> r[k] == TranslateCoords(r[k - 1], deltas[k - 1].0, deltas[k - 1].1)
    ensures forall k :: 0 <= k < |r| ==> r[k] == TranslateCoords(start, SumDeltas(deltas[..k]).0, SumDeltas(deltas[..k]).1)
  {
    r := [start];
    var p := start;
    var i := 0;
    while i < |deltas|
      invariant 0 <= i <= |deltas|
      invariant |r| == i + 1 && p == r[i]
      invariant forall k :: 0 <= k < |r| ==> r[k] == TranslateCoords(start, SumDeltas(deltas[..k]).0, SumDeltas(deltas[..k]).1)
    {
      SumDeltasSnoc(deltas, i);
      p := TranslateCoords(p, deltas[i].0, deltas[i].1);
      r := r + [p];
      i := i + 1;
    }
    forall k | 1 <= k < |r| ensures r[k] == TranslateCoords(r[k - 1], deltas[k - 1].0, deltas[k - 1].1) {
      SumDeltasSnoc(deltas, k - 1);
    }
  }


  /**
   * `coords_from_horizontal_deltas(start, deltas)`: as `CoordsFromDeltas`
   * with every displacement horizontal; all points stay on the start's
   * horizontal line.
   */
  method CoordsFromHorizontalDeltas(start: Point, deltas: seq<real>) returns (r: seq<Point>)
    ensures |r| == |deltas| + 1 && r[0] == start
    ensures forall k :: 1 <= k < |r| ==> r[k] == TranslateCoordsHorizontally(r[k - 1], deltas[k - 1])
    ensures forall k :: 0 <= k < |r| ==> r[k] == Point(start.x + Sum(deltas[..k]), start.y)
  {
    r := [start];
    var p := start;
    var i := 0;
    while i < |deltas|
      invariant 0 <= i <= |deltas|
      invariant |r| == i + 1 && p == r[i]
      invariant forall k :: 0 <= k < |r| ==> r[k] == Point(start.x + Sum(deltas[..k]), start.y)
    {
      SumSnoc(deltas, i);
      p := TranslateCoordsHorizontally(p, deltas[i]);
      r := r + [p];
      i := i + 1;
    }
    forall k | 1 <= k < |r| ensures r[k] == TranslateCoordsHorizontally(r[k - 1], deltas[k - 1]) {
      SumSnoc(deltas, k - 1);
    }
  }


  /**
   * `coords_from_vertical_deltas(start, deltas)`: as `CoordsFromDeltas`
   * with every displacement vertical; all points stay on the start's
   * vertical line.
   */
  method CoordsFromVerticalDeltas(start: Point, deltas: seq<real>) returns (r: seq<Point>)
    ensures |r| == |deltas| + 1 && r[0] == start
    ensures forall k :: 1 <= k < |r| ==> r[k] == TranslateCoordsVertically(r[k - 1], deltas[k - 1])
    ensures forall k :: 0 <= k < |r| ==> r[k] == Point(start.x, start.y + Sum(deltas[..k]))
  {
    r := [start];
    var p := start;
    var i := 0;
    while i < |deltas|
      invariant 0 <= i <= |deltas|
      invariant |r| == i + 1 && p == r[i]
      invariant forall k :: 0 <= k < |r| ==> r[k] == Point(start.x, start.y + Sum(deltas[..k]))
    {
      SumSnoc(deltas, i);
      p := TranslateCoordsVertically(p, deltas[i]);
      r := r + [p];
      i := i + 1;
    }
    forall k | 1 <= k < |r| ensures r[k] == TranslateCoordsVertically(r[k - 1], deltas[k - 1]) {
      SumSnoc(deltas, k - 1);
    }
  }


  /** The number of iterations of a loop over `range(n + 1)`: none when `n + 1` is not positive. */
  function Count(n: int): nat {
    if n + 1 > 0 then n + 1 else 0
  }

  /** The grid point in row `i` and column `j`: `j` cells right of and `i` cells below the top-left corner. */
  function GridPoint(tl: Point, i: nat, j: nat, w: real, h: real): Point {
    Point(tl.x + j as real * w, tl.y - i as real * h)
  }

  /** Neighbouring grid points are one cell width apart along a row and one cell height apart down a column. */
  lemma GridSpacing(tl: Point, i: nat, j: nat, w: real, h: real)
    ensures GridPoint(tl, i, j + 1, w, h).x - GridPoint(tl, i, j, w, h).x == w
    ensures GridPoint(tl, i, j + 1, w, h).y == GridPoint(tl, i, j, w, h).y
    ensures GridPoint(tl, i, j, w, h).y - GridPoint(tl, i + 1, j, w, h).y == h
    ensures GridPoint(tl, i + 1, j, w, h).x == GridPoint(tl, i, j, w, h).x
  {
    assert (j + 1) as real * w == j as real * w + w;
    assert (i + 1) as real * h == i as real * h + h;
  }

  /**
   * `coords_on_grid(top_left, num_rows, num_columns, cell_width,
   * cell_height)`: the `(num_rows + 1) x (num_columns + 1)` corner points of
   * a grid of cells, row by row from the top; row `i`, column `j` is `j`
   * cell widths to the right of and `i` cell heights below the top-left
   * corner.
   */
  method CoordsOnGrid(tl: Point, rows: int, cols: int, w: real, h: real) returns (g: seq<seq<Point>>)
    ensures |g| == Count(rows)
    ensures forall i :: 0 <= i < |g| ==> |g[i]| == Count(cols)
    ensures forall i, j :: 0 <= i < |g| && 0 <= j < |g[i]| ==> g[i][j] == GridPoint(tl, i, j, w, h)
    ensures |g| > 0 ==> |g[0]| > 0 ==> g[0][0] == tl
  {
    g := [];
    var i := 0;
    while i < rows + 1
      invariant 0 <= i <= Count(rows) && |g| == i
      invariant forall i' :: 0 <= i' < |g| ==> |g[i']| == Count(cols)
      invariant forall i', j :: 0 <= i' < |g| && 0 <= j < |g[i']| ==> g[i'][j] == GridPoint(tl, i', j, w, h)
    {
      var row := [];
      var j := 0;
      while j < cols + 1
        invariant 0 <= j <= Count(cols) && |row| == j
        invariant forall j' :: 0 <= j' < |row| ==> row[j'] == GridPoint(tl, i, j', w, h)
      {
        row := row + [TranslateCoords(tl, j as real * w, -(i as real) * h)];
        j := j + 1;
      }
      g := g + [row];
      i := i + 1;
    }
  }

  /** The irregular grid point in row `i` and column `j`: the first `j` column widths right and the first `i` row heights down. */
  function IrregularGridPoint(tl: Point, widths: seq<real>, heights: seq<real>, i: nat, j: nat): Point
    requires i <= |heights| && j <= |widths|
  {
    Point(tl.x + Sum(widths[..j]), tl.y - Sum(heights[..i]))
  }

  /** An irregular grid whose columns all have width `w` and rows height `h` is the regular grid. */
  lemma IrregularGridGeneralisesGrid(tl: Point, m: nat, n: nat, w: real, h: real, i: nat, j: nat)
    requires i <= n && j <= m
    ensures IrregularGridPoint(tl, seq(m, _ => w), seq(n, _ => h), i, j) == GridPoint(tl, i, j, w, h)
  {
    assert seq(m, _ => w)[..j] == seq(j, _ => w);
    assert seq(n, _ => h)[..i] == seq(i, _ => h);
    SumConstant(j, w);
    SumConstant(i, h);
  }

  /**
   * `coords_on_irregular_grid(top_left, column_widths, row_heights)`: the
   * first row follows the column widths from the top-left corner; each
   * further row starts the next row height further down and follows the
   * same column widths.
   */
  method CoordsOnIrregularGrid(tl: Point, widths: seq<real>, heights: seq<real>) returns (g: seq<seq<Point>>)
    ensures |g| == |heights| + 1
    ensures forall i :: 0 <= i < |g| ==> |g[i]| == |widths| + 1
    ensures forall i, j :: 0 <= i < |g| && 0 <= j < |g[i]| ==> g[i][j] == IrregularGridPoint(tl, widths, heights, i, j)
  {
    var p := tl;
    var row := CoordsFromHorizontalDeltas(p, widths);
    g := [row];
    var i := 0;
    while i < |heights|
      invariant 0 <= i <= |heights| && |g| == i + 1
      invariant p == Point(tl.x, tl.y - Sum(heights[..i]))
      invariant forall i' :: 0 <= i' < |g| ==> |g[i']| == |widths| + 1
      invariant forall i', j :: 0 <= i' < |g| && 0 <= j < |g[i']| ==> g[i'][j] == IrregularGridPoint(tl, widths, heights, i', j)
    {
      SumSnoc(heights, i);
      p := TranslateCoordsVertically(p, -heights[i]);
      row := CoordsFromHorizontalDeltas(p, widths);
      g := g + [row];
      i := i + 1;
    }
  }
}
