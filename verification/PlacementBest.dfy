/** placement_find_best (src/placement.c): the whole search, and why four corners per cell are enough. */
module PlacementBest {
  import opened Geometry
  import opened Overlap
  import opened Grid
  import opened PlacementGrid
  import opened PlacementScore
  import Placement

  /** The gap-inflated, decorated window with its corner at (x, y). */
  predicate Inside(area: Box, x: int, y: int, width: int, height: int) {
    area.x <= x && x + width <= area.Right() && area.y <= y && y + height <= area.Bottom()
  }

  /** No position inside the area overlaps less than o. */
  ghost predicate Optimal(rs: seq<Rect>, area: Box, width: int, height: int, o: int) {
    forall x, y :: Inside(area, x, y, width, height) ==> o <= Total(rs, At(x, y, width, height))
  }

  /** The loops of the search have tried direction t of cell (k, l) before direction c of cell (i, j). */
  predicate Before(k: int, l: int, t: int, i: int, j: int, c: int) {
    k < i || (k == i && (l < j || (l == j && t < c)))
  }

  predicate Right(t: int) { t == 0 || t == 2 }

  predicate Down(t: int) { t == 0 || t == 1 }

  /** Everything tried so far scores at least o. */
  ghost predicate LeastSoFar(rs: seq<Rect>, rows: seq<int>, cols: seq<int>, width: int, height: int,
                             i: int, j: int, c: int, o: int) {
    forall k, l, t :: 0 <= k < |rows| - 1 && 0 <= l < |cols| - 1 && 0 <= t < 4 && Before(k, l, t, i, j, c)
      ==> o <= Score(rs, rows, cols, k, l, width, height, Right(t), Down(t))
  }

  lemma LeastIsOptimal(rs: seq<Rect>, rows: seq<int>, cols: seq<int>, area: Box, width: int, height: int, o: int)
    requires IsGrid(rows, cols, rs, area)
    requires 0 < width && 0 < height
    requires LeastSoFar(rs, rows, cols, width, height, |rows| - 1, 0, 0, o)
    ensures Optimal(rs, area, width, height, o)
  {
    forall x, y | Inside(area, x, y, width, height) ensures o <= Total(rs, At(x, y, width, height)) {
      var i, j, right, down := CornerIsAsGood(rs, rows, cols, area, x, y, width, height);
      var t := if right then (if down then 0 else 2) else (if down then 1 else 3);
      assert Right(t) == right && Down(t) == down;
      assert Before(i, j, t, |rows| - 1, 0, 0);
    }
  }

  /** After a score from a single cell the other directions of that cell can be skipped. */
  lemma SkipRest(rs: seq<Rect>, rows: seq<int>, cols: seq<int>, area: Box, width: int, height: int,
                 i: int, j: int, c: int, o: int)
    requires IsGrid(rows, cols, rs, area)
    requires 0 <= i < |rows| - 1 && 0 <= j < |cols| - 1 && 0 <= c < 4
    requires 0 < width <= cols[j + 1] - cols[j] && 0 < height <= rows[i + 1] - rows[i]
    requires LeastSoFar(rs, rows, cols, width, height, i, j, c, o)
    requires o == Score(rs, rows, cols, i, j, width, height, Right(c), Down(c))
    ensures LeastSoFar(rs, rows, cols, width, height, i, j, 4, o)
  {
    SmallScoresSame(rs, rows, cols, area, i, j, width, height, Right(c), Down(c));
    forall t | c <= t < 4 ensures Score(rs, rows, cols, i, j, width, height, Right(t), Down(t)) == o {
      SmallScoresSame(rs, rows, cols, area, i, j, width, height, Right(t), Down(t));
    }
  }

  /** What the running minimum says about the position (x, y) recorded with it. */
  ghost predicate Recorded(rs: seq<Rect>, rows: seq<int>, cols: seq<int>, area: Box, width: int, height: int,
                           o: int, x: int, y: int) {
    && 0 <= o <= INT_MAX
    && (o == INT_MAX ==> x == area.x && y == area.y)
    && (o != INT_MAX && height > 0 ==> Inside(area, x, y, width, height) && o == Total(rs, At(x, y, width, height)))
    && (o != INT_MAX && height <= 0 ==> x == area.x && y == area.y)
  }

  /** The total of a window that fits stays below the value that means "does not fit". */
  lemma TotalIsExact(rs: seq<Rect>, x: int, y: int, width: int, height: int)
    requires 0 < width && 0 < height ==> |rs| * (width * height) < INT_MAX
    ensures Total(rs, At(x, y, width, height)) < INT_MAX
  {
    if 0 < width && 0 < height {
      TotalBound(rs, At(x, y, width, height));
    } else {
      TotalOfNothing(rs, At(x, y, width, height));
    }
  }

  /** A window without extent overlaps nothing wherever it is. */
  lemma NothingIsOptimal(rs: seq<Rect>, area: Box, width: int, height: int, x: int, y: int)
    requires width <= 0 || height <= 0
    ensures Optimal(rs, area, width, height, Total(rs, At(x, y, width, height)))
  {
    TotalOfNothing(rs, At(x, y, width, height));
  }

  /** The search over all cells and directions; (x, y) is the corner of the inflated window. */
  method Search(grid: array<int>, rows: seq<int>, cols: seq<int>, ghost rs: seq<Rect>, area: Box, width: int, height: int)
    returns (x: int, y: int)
    requires IsGrid(rows, cols, rs, area) && Counted(grid[..], rs, rows, cols)
    requires 0 < width && 0 < height ==> |rs| * (width * height) < INT_MAX
    ensures if width <= area.width && height <= area.height then
              Inside(area, x, y, width, height) && Optimal(rs, area, width, height, Total(rs, At(x, y, width, height)))
            else height > 0 ==> x == area.x && y == area.y
  {
    x, y := area.x, area.y;
    var min := INT_MAX;
    var nri, nci := |rows| - 1, |cols| - 1;
    var i := 0;
    label Rows: while i < nri
      invariant 0 <= i <= nri
      invariant Recorded(rs, rows, cols, area, width, height, min, x, y)
      invariant LeastSoFar(rs, rows, cols, width, height, i, 0, 0, min)
      invariant height <= 0 ==> min == INT_MAX && (i == 0 || nci == 0)
    {
      var j := 0;
      while j < nci
        invariant 0 <= j <= nci
        invariant Recorded(rs, rows, cols, area, width, height, min, x, y)
        invariant LeastSoFar(rs, rows, cols, width, height, i, j, 0, min)
        invariant height <= 0 ==> min == INT_MAX && (i == 0 || nci == 0) && j == 0
      {
        var done;
        min, x, y, done := TryCell(grid, rows, cols, rs, area, width, height, i, j, min, x, y);
        if done {
          break Rows;
        }
        j := j + 1;
      }
      i := i + 1;
    }
    if width <= 0 || height <= 0 {
      NothingIsOptimal(rs, area, width, height, x, y);
    } else if min > 0 {
      LeastIsOptimal(rs, rows, cols, area, width, height, min);
    }
    if width <= area.width && height <= area.height {
      TotalIsExact(rs, area.x, area.y, width, height);
      assert Inside(area, area.x, area.y, width, height);
    }
  }

  /** The four directions of one cell. */
  method TryCell(grid: array<int>, rows: seq<int>, cols: seq<int>, ghost rs: seq<Rect>, ghost area: Box,
                 width: int, height: int, i: int, j: int, min0: int, x0: int, y0: int)
    returns (min: int, x: int, y: int, done: bool)
    requires IsGrid(rows, cols, rs, area) && Counted(grid[..], rs, rows, cols)
    requires 0 < width && 0 < height ==> |rs| * (width * height) < INT_MAX
    requires 0 <= i < |rows| - 1 && 0 <= j < |cols| - 1
    requires Recorded(rs, rows, cols, area, width, height, min0, x0, y0)
    requires LeastSoFar(rs, rows, cols, width, height, i, j, 0, min0)
    requires height <= 0 ==> i == j == 0 && min0 == INT_MAX
    ensures Recorded(rs, rows, cols, area, width, height, min, x, y)
    ensures done ==> min == 0
    ensures !done ==> LeastSoFar(rs, rows, cols, width, height, i, j + 1, 0, min)
    ensures height <= 0 ==> done
  {
    min, x, y, done := min0, x0, y0, false;
    for t := 0 to 4
      invariant Recorded(rs, rows, cols, area, width, height, min, x, y)
      invariant LeastSoFar(rs, rows, cols, width, height, i, j, t, min)
      invariant height <= 0 ==> t == 0 && min == INT_MAX
    {
      var right, down := t % 2 == 0, t / 2 == 0;
      DirectionOf(t);
      var overlap, single := ComputeOverlap(grid, rows, cols, rs, area, i, j, width, height, right, down);
      OneMoreTried(rs, rows, cols, width, height, i, j, t, min, overlap);
      if overlap >= min {
        continue;
      }
      min := overlap;
      x := if right then cols[j] else cols[j + 1] - width;
      y := if down then rows[i] else rows[i + 1] - height;
      RecordsScore(rs, rows, cols, area, i, j, width, height, right, down, min, x, y);
      if min <= 0 {
        done := true;
        return;
      }
      if single {
        SkipRest(rs, rows, cols, area, width, height, i, j, t, min);
        CellDone(rs, rows, cols, width, height, i, j, min);
        return;
      }
    }
    CellDone(rs, rows, cols, width, height, i, j, min);
  }

  lemma DirectionOf(t: int)
    requires 0 <= t < 4
    ensures (t % 2 == 0) == Right(t) && (t / 2 == 0) == Down(t)
  {
  }

  /** Direction t of the cell has been tried as well. */
  lemma OneMoreTried(rs: seq<Rect>, rows: seq<int>, cols: seq<int>, width: int, height: int, i: int, j: int, t: int, o: int, score: int)
    requires 0 <= i < |rows| - 1 && 0 <= j < |cols| - 1 && 0 <= t < 4
    requires LeastSoFar(rs, rows, cols, width, height, i, j, t, o)
    requires score == Score(rs, rows, cols, i, j, width, height, Right(t), Down(t))
    ensures score >= o ==> LeastSoFar(rs, rows, cols, width, height, i, j, t + 1, o)
    ensures score < o ==> LeastSoFar(rs, rows, cols, width, height, i, j, t, score)
    ensures score < o ==> LeastSoFar(rs, rows, cols, width, height, i, j, t + 1, score)
  {
  }

  /** All four directions of a cell have been tried. */
  lemma CellDone(rs: seq<Rect>, rows: seq<int>, cols: seq<int>, width: int, height: int, i: int, j: int, o: int)
    requires LeastSoFar(rs, rows, cols, width, height, i, j, 4, o)
    ensures LeastSoFar(rs, rows, cols, width, height, i, j + 1, 0, o)
  {
  }

  /** A new least score is recorded with its position. */
  lemma RecordsScore(rs: seq<Rect>, rows: seq<int>, cols: seq<int>, area: Box, i: int, j: int, width: int, height: int,
                     right: bool, down: bool, score: int, x: int, y: int)
    requires IsGrid(rows, cols, rs, area) && 0 <= i < |rows| - 1 && 0 <= j < |cols| - 1
    requires 0 < width && 0 < height ==> |rs| * (width * height) < INT_MAX
    requires score == Score(rs, rows, cols, i, j, width, height, right, down) && score < INT_MAX
    requires x == Anchor(cols, j, width, right) && y == Anchor(rows, i, height, down)
    requires height <= 0 ==> i == j == 0 && right && down
    ensures Recorded(rs, rows, cols, area, width, height, score, x, y)
  {
    TotalIsExact(rs, x, y, width, height);
  }

  /** placement_find_best. The margin is that of the view being placed. */
  method FindBest(d: Desk, margin: Border, gap: int, geometry: Box) returns (ok: bool, placed: Box)
    requires d.Sane()
    requires var w, h := geometry.width + margin.left + margin.right + 2 * gap,
                         geometry.height + margin.top + margin.bottom + 2 * gap;
             0 < w && 0 < h ==> |d.Others()| * (w * h) < INT_MAX
    ensures ok == d.output.usable
    ensures !ok ==> placed == geometry
    ensures placed.width == geometry.width && placed.height == geometry.height
    ensures ok ==>
              var w, h := geometry.width + margin.left + margin.right + 2 * gap,
                          geometry.height + margin.top + margin.bottom + 2 * gap;
              var x, y := placed.x - margin.left - gap, placed.y - margin.top - gap;
              if w <= d.output.area.width && h <= d.output.area.height then
                && Inside(d.output.area, x, y, w, h)
                && Optimal(d.Others(), d.output.area, w, h, Total(d.Others(), At(x, y, w, h)))
              else h > 0 ==> x == d.output.area.x && y == d.output.area.y
  {
    ok, placed := d.output.usable, geometry;
    if !d.output.usable {
      return;
    }
    var usable := d.output.area;
    placed := placed.(x := usable.x + margin.left + gap, y := usable.y + margin.top + gap);
    var bmp := new OverlapBitmap();
    bmp.BuildGrid(d);
    Placement.BuildOverlap(bmp, d);
    var height := geometry.height + margin.top + margin.bottom + 2 * gap;
    var width := geometry.width + margin.left + margin.right + 2 * gap;
    var offsetX, offsetY := margin.left + gap, margin.top + gap;
    if bmp.nrRows > 0 {
      var x, y := Search(bmp.grid, bmp.rows[..bmp.nrRows], bmp.cols[..bmp.nrCols], d.Others(), usable, width, height);
      placed := placed.(x := x + offsetX, y := y + offsetY);
    }
  }

  // ---- what optimality means for a caller ----

  /** No pixel of w is covered by any window. */
  ghost predicate FreeOf(rs: seq<Rect>, w: Rect) {
    forall px, py :: w.Covers(px, py) ==> CountAt(rs, px, py) == 0
  }

  lemma {:induction false} FreeIffZero(rs: seq<Rect>, w: Rect)
    ensures FreeOf(rs, w) <==> Total(rs, w) == 0
  {
    if rs != [] {
      var n := |rs| - 1;
      FreeIffZero(rs[..n], w);
      AreaZero(rs[n], w);
      forall px, py | w.Covers(px, py)
        ensures CountAt(rs, px, py) == 0 <==> CountAt(rs[..n], px, py) == 0 && !rs[n].Covers(px, py)
      {
      }
    }
  }

  lemma AreaZero(r: Rect, w: Rect)
    ensures Area(r, w) == 0 <==> forall px, py :: w.Covers(px, py) ==> !r.Covers(px, py)
  {
    var lx, ly := Len(r.x1, r.x2, w.x1, w.x2), Len(r.y1, r.y2, w.y1, w.y2);
    assert lx * ly == 0 <==> lx == 0 || ly == 0;
    if lx > 0 && ly > 0 {
      var px, py := Max(r.x1, w.x1), Max(r.y1, w.y1);
      assert w.Covers(px, py) && r.Covers(px, py);
    }
  }

  /** If some position in the area is free of windows, an optimal position is free of windows too. */
  lemma FreeSpotIsFound(rs: seq<Rect>, area: Box, width: int, height: int, x: int, y: int, fx: int, fy: int)
    requires Optimal(rs, area, width, height, Total(rs, At(x, y, width, height)))
    requires Inside(area, fx, fy, width, height) && FreeOf(rs, At(fx, fy, width, height))
    ensures FreeOf(rs, At(x, y, width, height))
  {
    FreeIffZero(rs, At(fx, fy, width, height));
    FreeIffZero(rs, At(x, y, width, height));
  }
}
