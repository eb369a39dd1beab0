/** compute_overlap (src/placement.c): walking the grid adds up the overlap of one anchored rectangle. */
module PlacementScore {
  import opened Geometry
  import opened Overlap
  import opened Grid

  /** m is a place the walk can be at. */
  predicate OnWalk(lines: seq<int>, k: int, m: int, forward: bool) {
    0 <= k < |lines| - 1 && if forward then k <= m < |lines| else -1 <= m <= k
  }

  /** After walking from interval k up to (not including) interval m, the part of the span seen so far. */
  function SeenLo(lines: seq<int>, k: int, m: int, size: int, forward: bool): int
    requires OnWalk(lines, k, m, forward)
  {
    if forward then lines[k] else Max(lines[k + 1] - size, lines[m + 1])
  }

  function SeenHi(lines: seq<int>, k: int, m: int, size: int, forward: bool): int
    requires OnWalk(lines, k, m, forward)
  {
    if forward then Min(lines[k] + size, lines[m]) else lines[k + 1]
  }

  /** The size that is left after that walk; not positive once the span has been covered. */
  function Left(lines: seq<int>, k: int, m: int, size: int, forward: bool): int
    requires OnWalk(lines, k, m, forward)
  {
    size - if forward then lines[m] - lines[k] else lines[k + 1] - lines[m + 1]
  }

  function Next(m: int, forward: bool): int {
    if forward then m + 1 else m - 1
  }

  /** How many intervals the walk has gone through. */
  function Steps(k: int, m: int, forward: bool): int {
    if forward then m - k else k - m
  }

  /** The slice that interval m contributes. */
  function SliceLo(lines: seq<int>, m: int, left: int, forward: bool): int
    requires 0 <= m < |lines| - 1
  {
    if forward then lines[m] else lines[m + 1] - Max(0, Min(left, lines[m + 1] - lines[m]))
  }

  function SliceHi(lines: seq<int>, m: int, left: int, forward: bool): int
    requires 0 <= m < |lines| - 1
  {
    if forward then lines[m] + Max(0, Min(left, lines[m + 1] - lines[m])) else lines[m + 1]
  }

  lemma WalkStep(lines: seq<int>, k: int, m: int, size: int, forward: bool)
    requires Increasing(lines) && OnWalk(lines, k, m, forward)
    requires 0 <= m < |lines| - 1
    requires Left(lines, k, m, size, forward) > 0
    ensures OnWalk(lines, k, Next(m, forward), forward)
    ensures Left(lines, k, Next(m, forward), size, forward)
         == Left(lines, k, m, size, forward) - (lines[m + 1] - lines[m])
    ensures var lo, hi := SliceLo(lines, m, Left(lines, k, m, size, forward), forward),
                          SliceHi(lines, m, Left(lines, k, m, size, forward), forward);
            && lines[m] <= lo <= hi <= lines[m + 1]
            && hi - lo == Max(0, Min(Left(lines, k, m, size, forward), lines[m + 1] - lines[m]))
            && (if forward then
                  && SeenLo(lines, k, Next(m, forward), size, forward) == SeenLo(lines, k, m, size, forward)
                  && SeenHi(lines, k, m, size, forward) == lo
                  && SeenHi(lines, k, Next(m, forward), size, forward) == hi
                else
                  && SeenHi(lines, k, Next(m, forward), size, forward) == SeenHi(lines, k, m, size, forward)
                  && SeenLo(lines, k, m, size, forward) == hi
                  && SeenLo(lines, k, Next(m, forward), size, forward) == lo)
    ensures SeenLo(lines, k, m, size, forward) <= SeenHi(lines, k, m, size, forward)
  {
    assert lines[m] < lines[m + 1];
    assert k < m ==> lines[k] < lines[m];
    assert m < k ==> lines[m + 1] <= lines[k] < lines[k + 1];
  }

  lemma WalkStart(lines: seq<int>, k: int, size: int, forward: bool)
    requires 0 <= k < |lines| - 1
    ensures OnWalk(lines, k, k, forward) && Left(lines, k, k, size, forward) == size
    ensures 0 <= size ==> SeenLo(lines, k, k, size, forward) == SeenHi(lines, k, k, size, forward)
    ensures size < 0 ==> SeenHi(lines, k, k, size, forward) <= SeenLo(lines, k, k, size, forward)
  {
  }

  /** At the end of the walk the whole span has been seen, or the span leaves the grid. */
  lemma WalkEnd(lines: seq<int>, k: int, m: int, size: int, forward: bool)
    requires Increasing(lines) && OnWalk(lines, k, m, forward)
    requires size > 0
    ensures var pos := Anchor(lines, k, size, forward);
            && (Left(lines, k, m, size, forward) <= 0 ==>
                  && Fits(lines, pos, size)
                  && SeenLo(lines, k, m, size, forward) == pos && SeenHi(lines, k, m, size, forward) == pos + size)
            && (Left(lines, k, m, size, forward) > 0 && !(0 <= m < |lines| - 1) ==> !Fits(lines, pos, size))
  {
    assert m >= 0 ==> m == |lines| - 1 || lines[m] < lines[|lines| - 1];
    assert m + 1 == 0 || m + 1 == |lines| || lines[0] < lines[m + 1];
    assert k == 0 || lines[0] < lines[k];
    assert k + 1 == |lines| - 1 || lines[k + 1] < lines[|lines| - 1];
  }

  lemma EntryOf(g: seq<int>, rs: seq<Rect>, rows: seq<int>, cols: seq<int>, i: int, j: int)
    requires Counted(g, rs, rows, cols)
    requires 0 <= i < |rows| - 1 && 0 <= j < |cols| - 1
    ensures Entry(g, |cols| - 1, i, j) == CountAt(rs, cols[j], rows[i])
  {
  }

  lemma Associate(a: int, b: int, c: int)
    ensures a * b * c == a * (b * c)
  {
  }

  /** One interval of the inner loop: its counter times its slice is its share of the total. */
  lemma CellShare(g: seq<int>, rs: seq<Rect>, rows: seq<int>, cols: seq<int>, area: Box,
                  ii: int, jj: int, y1: int, y2: int, x1: int, x2: int)
    requires IsGrid(rows, cols, rs, area) && Counted(g, rs, rows, cols)
    requires 0 <= ii < |rows| - 1 && 0 <= jj < |cols| - 1
    requires rows[ii] <= y1 <= y2 <= rows[ii + 1] && cols[jj] <= x1 <= x2 <= cols[jj + 1]
    ensures Entry(g, |cols| - 1, ii, jj) * (y2 - y1) * (x2 - x1) == Total(rs, Rect(x1, y1, x2, y2))
  {
    CellUncut(rows, cols, rs, area, ii, jj);
    TotalInCell(rs, Cell(rows, cols, ii, jj), Rect(x1, y1, x2, y2));
    EntryOf(g, rs, rows, cols, ii, jj);
    Associate(CountAt(rs, cols[jj], rows[ii]), y2 - y1, x2 - x1);
  }

  /** Appending a slice on either side of what has been seen. */
  lemma JoinX(rs: seq<Rect>, lo: int, hi: int, lo': int, hi': int, a: int, b: int, y1: int, y2: int)
    requires lo <= hi && a <= b
    requires (lo' == lo && hi == a && hi' == b) || (hi' == hi && lo == b && lo' == a)
    ensures Total(rs, Rect(lo', y1, hi', y2)) == Total(rs, Rect(lo, y1, hi, y2)) + Total(rs, Rect(a, y1, b, y2))
  {
    SplitX(rs, Rect(lo', y1, hi', y2), if lo' == lo then a else b);
  }

  lemma JoinY(rs: seq<Rect>, lo: int, hi: int, lo': int, hi': int, a: int, b: int, x1: int, x2: int)
    requires lo <= hi && a <= b
    requires (lo' == lo && hi == a && hi' == b) || (hi' == hi && lo == b && lo' == a)
    ensures Total(rs, Rect(x1, lo', x2, hi')) == Total(rs, Rect(x1, lo, x2, hi)) + Total(rs, Rect(x1, a, x2, b))
  {
    SplitY(rs, Rect(x1, lo', x2, hi'), if lo' == lo then a else b);
  }

  // ---- one row of cells ----

  /** After walking the columns from j up to jj: what is left of the width, and the overlap of what has been seen. */
  ghost predicate RowSeen(rs: seq<Rect>, cols: seq<int>, j: int, jj: int, width: int, right: bool, y1: int, y2: int,
                          ww: int, overlap: int) {
    && OnWalk(cols, j, jj, right)
    && ww == Left(cols, j, jj, width, right)
    && overlap == Total(rs, Rect(SeenLo(cols, j, jj, width, right), y1, SeenHi(cols, j, jj, width, right), y2))
  }

  lemma RowStart(rs: seq<Rect>, cols: seq<int>, j: int, width: int, right: bool, y1: int, y2: int)
    requires Increasing(cols) && 0 <= j < |cols| - 1
    ensures RowSeen(rs, cols, j, j, width, right, y1, y2, width, 0)
  {
    WalkStart(cols, j, width, right);
    TotalOfNothing(rs, Rect(SeenLo(cols, j, j, width, right), y1, SeenHi(cols, j, j, width, right), y2));
  }

  lemma RowStep(g: seq<int>, rs: seq<Rect>, rows: seq<int>, cols: seq<int>, area: Box, ii: int, j: int, jj: int,
                width: int, right: bool, y1: int, y2: int, ww: int, overlap: int)
    requires IsGrid(rows, cols, rs, area) && Counted(g, rs, rows, cols)
    requires 0 <= ii < |rows| - 1 && rows[ii] <= y1 <= y2 <= rows[ii + 1]
    requires 0 <= jj < |cols| - 1 && ww > 0 && RowSeen(rs, cols, j, jj, width, right, y1, y2, ww, overlap)
    ensures var cw := cols[jj + 1] - cols[jj];
            RowSeen(rs, cols, j, Next(jj, right), width, right, y1, y2, ww - cw,
                    overlap + Entry(g, |cols| - 1, ii, jj) * (y2 - y1) * Max(0, Min(ww, cw)))
  {
    WalkStep(cols, j, jj, width, right);
    var a, b := SliceLo(cols, jj, ww, right), SliceHi(cols, jj, ww, right);
    CellShare(g, rs, rows, cols, area, ii, jj, y1, y2, a, b);
    JoinX(rs, SeenLo(cols, j, jj, width, right), SeenHi(cols, j, jj, width, right),
          SeenLo(cols, j, Next(jj, right), width, right), SeenHi(cols, j, Next(jj, right), width, right), a, b, y1, y2);
  }

  lemma RowEnd(rs: seq<Rect>, cols: seq<int>, j: int, jj: int, width: int, right: bool, y1: int, y2: int, ww: int, overlap: int)
    requires Increasing(cols) && 0 <= j < |cols| - 1
    requires RowSeen(rs, cols, j, jj, width, right, y1, y2, ww, overlap) && !(0 <= jj < |cols| - 1 && ww > 0)
    requires width <= 0 ==> jj == j
    ensures var x := Anchor(cols, j, width, right);
            && (ww > 0 <==> width > 0 && !Fits(cols, x, width))
            && (ww <= 0 ==> overlap == Total(rs, Rect(x, y1, x + width, y2)))
            && (width > 0 ==> Steps(j, jj, right) >= 1)
            && (Steps(j, jj, right) == 1 && ww <= 0 ==> width <= cols[j + 1] - cols[j])
  {
    var x := Anchor(cols, j, width, right);
    if width > 0 {
      WalkEnd(cols, j, jj, width, right);
    } else {
      TotalOfNothing(rs, Rect(x, y1, x + width, y2));
      TotalOfNothing(rs, Rect(SeenLo(cols, j, jj, width, right), y1, SeenHi(cols, j, jj, width, right), y2));
    }
  }

  /** The inner loop of compute_overlap: one row of cells, for a strip of height mh within row ii. */
  method WalkRow(grid: array<int>, rowLines: seq<int>, cols: seq<int>, ghost rs: seq<Rect>, ghost area: Box,
                 ii: int, ghost y1: int, mh: int, j: int, width: int, right: bool)
    returns (overlap: int, ww: int, count: nat)
    requires IsGrid(rowLines, cols, rs, area) && Counted(grid[..], rs, rowLines, cols)
    requires 0 <= ii < |rowLines| - 1 && 0 <= j < |cols| - 1
    requires 0 <= mh && rowLines[ii] <= y1 && y1 + mh <= rowLines[ii + 1]
    ensures ww > 0 <==> width > 0 && !Fits(cols, Anchor(cols, j, width, right), width)
    ensures ww <= 0 ==> overlap == Total(rs, Rect(Anchor(cols, j, width, right), y1, Anchor(cols, j, width, right) + width, y1 + mh))
    ensures width <= 0 ==> count == 0
    ensures width > 0 ==> count >= 1
    ensures count == 1 && ww <= 0 ==> width <= cols[j + 1] - cols[j]
  {
    var nci := |cols| - 1;
    overlap, count, ww := 0, 0, width;
    var jj := j;
    RowStart(rs, cols, j, width, right, y1, y1 + mh);
    while 0 <= jj < nci && ww > 0
      invariant RowSeen(rs, cols, j, jj, width, right, y1, y1 + mh, ww, overlap)
      invariant count == Steps(j, jj, right) && (width <= 0 ==> count == 0)
      decreases if right then nci - jj else jj + 1
    {
      RowStep(grid[..], rs, rowLines, cols, area, ii, j, jj, width, right, y1, y1 + mh, ww, overlap);
      var cw := cols[jj + 1] - cols[jj];
      var mw := Max(0, Min(ww, cw));
      var entry := ReadEntry(grid, |rowLines| - 1, nci, ii, jj);
      overlap := overlap + entry * mh * mw;
      count := count + 1;
      ww := ww - cw;
      jj := if right then jj + 1 else jj - 1;
    }
    RowEnd(rs, cols, j, jj, width, right, y1, y1 + mh, ww, overlap);
  }

  /** The macro overlap_bitmap_index, read. */
  method ReadEntry(grid: array<int>, nri: nat, nci: nat, i: int, j: int) returns (entry: int)
    requires grid.Length == nri * nci && 0 <= i < nri && 0 <= j < nci
    ensures entry == Entry(grid[..], nci, i, j)
  {
    IndexIn(nri, nci, i, j);
    entry := grid[i * nci + j];
  }

  // ---- all rows ----

  /** After walking the rows from i up to ii. */
  ghost predicate RowsSeen(rs: seq<Rect>, rows: seq<int>, i: int, ii: int, height: int, down: bool, x1: int, x2: int,
                           left: int, overlap: int) {
    && OnWalk(rows, i, ii, down)
    && left == Left(rows, i, ii, height, down)
    && overlap == Total(rs, Rect(x1, SeenLo(rows, i, ii, height, down), x2, SeenHi(rows, i, ii, height, down)))
  }

  lemma RowsStart(rs: seq<Rect>, rows: seq<int>, i: int, height: int, down: bool, x1: int, x2: int)
    requires Increasing(rows) && 0 <= i < |rows| - 1
    ensures RowsSeen(rs, rows, i, i, height, down, x1, x2, height, 0)
  {
    WalkStart(rows, i, height, down);
    TotalOfNothing(rs, Rect(x1, SeenLo(rows, i, i, height, down), x2, SeenHi(rows, i, i, height, down)));
  }

  /** The next row is a strip of this height at this place. */
  lemma RowsStrip(rs: seq<Rect>, rows: seq<int>, i: int, ii: int, height: int, down: bool, x1: int, x2: int, left: int, overlap: int)
    requires Increasing(rows) && 0 <= ii < |rows| - 1 && left > 0
    requires RowsSeen(rs, rows, i, ii, height, down, x1, x2, left, overlap)
    ensures var mh, y1 := Max(0, Min(left, rows[ii + 1] - rows[ii])), SliceLo(rows, ii, left, down);
            && rows[ii] <= y1 && y1 + mh <= rows[ii + 1]
            && RowsSeen(rs, rows, i, Next(ii, down), height, down, x1, x2, left - (rows[ii + 1] - rows[ii]),
                        overlap + Total(rs, Rect(x1, y1, x2, y1 + mh)))
  {
    WalkStep(rows, i, ii, height, down);
    JoinY(rs, SeenLo(rows, i, ii, height, down), SeenHi(rows, i, ii, height, down),
          SeenLo(rows, i, Next(ii, down), height, down), SeenHi(rows, i, Next(ii, down), height, down),
          SliceLo(rows, ii, left, down), SliceHi(rows, ii, left, down), x1, x2);
  }

  lemma RowsEnd(rs: seq<Rect>, rows: seq<int>, i: int, ii: int, height: int, down: bool, x1: int, x2: int, left: int, overlap: int)
    requires Increasing(rows) && 0 <= i < |rows| - 1 && height > 0
    requires RowsSeen(rs, rows, i, ii, height, down, x1, x2, left, overlap) && !(0 <= ii < |rows| - 1 && left > 0)
    ensures var y := Anchor(rows, i, height, down);
            && ii != i
            && (left > 0 <==> !Fits(rows, y, height))
            && (left <= 0 ==> overlap == Total(rs, Rect(x1, y, x2, y + height)))
            && (left <= 0 && Steps(i, ii, down) <= 1 ==> height <= rows[i + 1] - rows[i])
  {
    WalkEnd(rows, i, ii, height, down);
  }

  /** What the number of cells met in the first `rows` rows says. */
  predicate Tallied(rows: int, width: int, height: int, cell: int, fits: bool, count: nat) {
    && rows >= 0
    && (if width > 0 then rows <= count else count == 0)
    && (rows == 0 ==> count == 0)
    && (rows > 0 ==> fits && height > 0)
    && (rows > 0 && count == 1 ==> 0 < width <= cell)
  }

  /** One round of the outer loop; `out` if the row sticks out of the grid. */
  method OneRow(grid: array<int>, rows: seq<int>, cols: seq<int>, ghost rs: seq<Rect>, ghost area: Box, ghost i: int, ii: int,
                j: int, width: int, ghost height: int, right: bool, ghost down: bool, ghost y1: int, left: int, overlap: int, count: nat)
    returns (out: bool, left': int, overlap': int, count': nat)
    requires IsGrid(rows, cols, rs, area) && Counted(grid[..], rs, rows, cols)
    requires 0 <= i < |rows| - 1 && 0 <= ii < |rows| - 1 && 0 <= j < |cols| - 1 && left > 0 && height > 0
    requires width <= 0 ==> Fits(cols, Anchor(cols, j, width, right), width)
    requires var x := Anchor(cols, j, width, right); RowsSeen(rs, rows, i, ii, height, down, x, x + width, left, overlap)
    requires Tallied(Steps(i, ii, down), width, height, cols[j + 1] - cols[j], Fits(cols, Anchor(cols, j, width, right), width), count)
    requires y1 == SliceLo(rows, ii, left, down)
    ensures out <==> !Fits(cols, Anchor(cols, j, width, right), width)
    ensures !out ==>
              var x := Anchor(cols, j, width, right);
              && RowsSeen(rs, rows, i, Next(ii, down), height, down, x, x + width, left', overlap')
              && Tallied(Steps(i, Next(ii, down), down), width, height, cols[j + 1] - cols[j], true, count')
  {
    ghost var x := Anchor(cols, j, width, right);
    RowsStrip(rs, rows, i, ii, height, down, x, x + width, left, overlap);
    var rh := rows[ii + 1] - rows[ii];
    var mh := Max(0, Min(left, rh));
    var rowOverlap, ww, n := WalkRow(grid, rows, cols, rs, area, ii, y1, mh, j, width, right);
    out, left', overlap', count' := ww > 0, left - rh, overlap + rowOverlap, count + n;
  }

  /** The outer loop of compute_overlap. */
  method WalkRows(grid: array<int>, rows: seq<int>, cols: seq<int>, ghost rs: seq<Rect>, ghost area: Box,
                  i: int, j: int, width: int, height: int, right: bool, down: bool)
    returns (overlap: int, left: int, count: nat)
    requires IsGrid(rows, cols, rs, area) && Counted(grid[..], rs, rows, cols)
    requires 0 <= i < |rows| - 1 && 0 <= j < |cols| - 1
    requires width <= 0 ==> Fits(cols, Anchor(cols, j, width, right), width)
    ensures height <= 0 ==> overlap == 0 && left <= 0 && count == 0
    ensures height > 0 && !Fits(cols, Anchor(cols, j, width, right), width) ==> overlap == INT_MAX
    ensures height > 0 && Fits(cols, Anchor(cols, j, width, right), width) ==>
              && (left > 0 <==> !Fits(rows, Anchor(rows, i, height, down), height))
              && (left <= 0 ==>
                    overlap == Total(rs, At(Anchor(cols, j, width, right), Anchor(rows, i, height, down), width, height)))
              && (count == 1 && left <= 0 ==>
                    0 < width <= cols[j + 1] - cols[j] && height <= rows[i + 1] - rows[i])
  {
    var nri := |rows| - 1;
    ghost var x := Anchor(cols, j, width, right);
    ghost var fits := Fits(cols, x, width);
    left, overlap, count := height, 0, 0;
    var ii := i;
    RowsStart(rs, rows, i, height, down, x, x + width);
    while 0 <= ii < nri && left > 0
      invariant RowsSeen(rs, rows, i, ii, height, down, x, x + width, left, overlap)
      invariant Tallied(Steps(i, ii, down), width, height, cols[j + 1] - cols[j], fits, count)
      decreases if down then nri - ii else ii + 1
    {
      var out;
      out, left, overlap, count := OneRow(grid, rows, cols, rs, area, i, ii, j, width, height, right, down,
                                          SliceLo(rows, ii, left, down), left, overlap, count);
      if out {
        overlap := INT_MAX;
        return;
      }
      ii := if down then ii + 1 else ii - 1;
    }
    if height > 0 {
      RowsEnd(rs, rows, i, ii, height, down, x, x + width, left, overlap);
    } else {
      TotalOfNothing(rs, Rect(x, SeenLo(rows, i, i, height, down), x + width, SeenHi(rows, i, i, height, down)));
    }
  }

  /** compute_overlap: the total overlap of the rectangle anchored at cell (i, j), or INT_MAX if it leaves the grid. */
  method ComputeOverlap(grid: array<int>, rows: seq<int>, cols: seq<int>, ghost rs: seq<Rect>, ghost area: Box,
                        i: int, j: int, width: int, height: int, right: bool, down: bool)
    returns (overlap: int, single: bool)
    requires IsGrid(rows, cols, rs, area) && Counted(grid[..], rs, rows, cols)
    requires 0 <= i < |rows| - 1 && 0 <= j < |cols| - 1
    ensures overlap == Score(rs, rows, cols, i, j, width, height, right, down)
    ensures single && overlap != INT_MAX ==>
              0 < width <= cols[j + 1] - cols[j] && 0 < height <= rows[i + 1] - rows[i]
  {
    AnchorFits(cols, area.x, area.Right(), j, width, right);
    var left, count;
    overlap, left, count := WalkRows(grid, rows, cols, rs, area, i, j, width, height, right, down);
    if left > 0 {
      overlap := INT_MAX;
    }
    single := count == 1;
  }

  /** A span of no size never leaves the grid. */
  lemma AnchorFits(lines: seq<int>, lo: int, hi: int, k: int, size: int, forward: bool)
    requires Lines(lines, lo, hi) && 0 <= k < |lines| - 1
    ensures size <= 0 ==> Fits(lines, Anchor(lines, k, size, forward), size)
  {
    LineBounds(lines, lo, hi, k);
    LineBounds(lines, lo, hi, k + 1);
  }
}
