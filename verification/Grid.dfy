/**
 The irregular grid behind placement: sorted lines through every window edge
 inside the usable area, and the meaning of a score read off that grid.
 */
module Grid {
  import opened Geometry
  import opened Overlap

  predicate Increasing(s: seq<int>) {
    forall a, b :: 0 <= a < b < |s| ==> s[a] < s[b]
  }

  /** Grid lines from lo to hi. */
  predicate Lines(s: seq<int>, lo: int, hi: int) {
    |s| > 0 && Increasing(s) && s[0] == lo && s[|s| - 1] == hi
  }

  /** The lines go through every window edge that is strictly inside the area. */
  ghost predicate IsGrid(rows: seq<int>, cols: seq<int>, rs: seq<Rect>, area: Box) {
    && Lines(cols, area.x, area.Right())
    && Lines(rows, area.y, area.Bottom())
    && (forall r :: r in rs ==> Listed(r, cols, area.x, area.Right()))
    && (forall r :: r in rs ==> Listed(r.Transpose(), rows, area.y, area.Bottom()))
  }

  /** The cell between adjacent lines. */
  function Cell(rows: seq<int>, cols: seq<int>, i: int, j: int): Rect
    requires 0 <= i < |rows| - 1 && 0 <= j < |cols| - 1
  {
    Rect(cols[j], rows[i], cols[j + 1], rows[i + 1])
  }

  lemma NoLineBetween(s: seq<int>, k: int, v: int)
    requires Increasing(s) && 0 <= k < |s| - 1
    requires v in s
    ensures !(s[k] < v < s[k + 1])
  {
    var a :| 0 <= a < |s| && s[a] == v;
    if a <= k {
      assert a == k || s[a] < s[k];
    } else {
      assert a == k + 1 || s[k + 1] < s[a];
    }
  }

  lemma LineBounds(s: seq<int>, lo: int, hi: int, k: int)
    requires Lines(s, lo, hi) && 0 <= k < |s|
    ensures lo <= s[k] <= hi
  {
    assert k == 0 || s[0] < s[k];
    assert k == |s| - 1 || s[k] < s[|s| - 1];
  }

  /** No window edge crosses a cell: each window covers a cell fully or not at all. */
  lemma CellUncut(rows: seq<int>, cols: seq<int>, rs: seq<Rect>, area: Box, i: int, j: int)
    requires IsGrid(rows, cols, rs, area)
    requires 0 <= i < |rows| - 1 && 0 <= j < |cols| - 1
    ensures forall r :: r in rs ==> Uncut(r, Cell(rows, cols, i, j))
    ensures cols[j] < cols[j + 1] && rows[i] < rows[i + 1]
  {
    var cell := Cell(rows, cols, i, j);
    LineBounds(cols, area.x, area.Right(), j);
    LineBounds(cols, area.x, area.Right(), j + 1);
    LineBounds(rows, area.y, area.Bottom(), i);
    LineBounds(rows, area.y, area.Bottom(), i + 1);
    forall r | r in rs ensures Uncut(r, cell) {
      assert Listed(r, cols, area.x, area.Right()) && Listed(r.Transpose(), rows, area.y, area.Bottom());
      UncutBetween(cols, j, r.x1, area.x, area.Right());
      UncutBetween(cols, j, r.x2, area.x, area.Right());
      UncutBetween(rows, i, r.y1, area.y, area.Bottom());
      UncutBetween(rows, i, r.y2, area.y, area.Bottom());
    }
  }

  lemma UncutBetween(s: seq<int>, k: int, v: int, lo: int, hi: int)
    requires Lines(s, lo, hi) && 0 <= k < |s| - 1
    requires lo < v < hi ==> v in s
    ensures !(s[k] < v < s[k + 1])
  {
    LineBounds(s, lo, hi, k);
    LineBounds(s, lo, hi, k + 1);
    if s[k] < v < s[k + 1] {
      NoLineBetween(s, k, v);
    }
  }

  // ---- the bitmap, a flat array in row-major order ----

  /** The macro overlap_bitmap_index, with nci columns of cells. */
  function Entry(g: seq<int>, nci: int, i: int, j: int): int {
    if 0 <= i * nci + j < |g| then g[i * nci + j] else 0
  }

  lemma IndexIn(nri: int, nci: int, i: int, j: int)
    requires 0 <= i < nri && 0 <= j < nci
    ensures 0 <= i * nci + j < nri * nci
  {
    assert i * nci + nci == (i + 1) * nci <= nri * nci;
  }

  lemma IndexOrder(nci: int, i: int, j: int, k: int, l: int)
    requires 0 <= j < nci && 0 <= l < nci && i < k
    ensures i * nci + j < k * nci + l
  {
    assert i * nci + nci == (i + 1) * nci <= k * nci;
  }

  lemma IndexInjective(nci: int, i: int, j: int, k: int, l: int)
    requires 0 <= j < nci && 0 <= l < nci
    ensures i * nci + j == k * nci + l ==> i == k && j == l
  {
    if i < k {
      IndexOrder(nci, i, j, k, l);
    } else if k < i {
      IndexOrder(nci, k, l, i, j);
    }
  }

  /** Each entry is the number of windows over the cell. */
  ghost predicate Counted(g: seq<int>, rs: seq<Rect>, rows: seq<int>, cols: seq<int>) {
    && |rows| >= 1 && |cols| >= 1
    && |g| == (|rows| - 1) * (|cols| - 1)
    && forall i, j :: 0 <= i < |rows| - 1 && 0 <= j < |cols| - 1 ==>
         Entry(g, |cols| - 1, i, j) == CountAt(rs, cols[j], rows[i])
  }

  /**
   The bitmap refines plain counting: an entry is the number of windows covering
   every single pixel of its cell.
   */
  lemma EntryCountsEveryPixel(g: seq<int>, rs: seq<Rect>, rows: seq<int>, cols: seq<int>, area: Box,
                              i: int, j: int, px: int, py: int)
    requires IsGrid(rows, cols, rs, area) && Counted(g, rs, rows, cols)
    requires 0 <= i < |rows| - 1 && 0 <= j < |cols| - 1
    requires Cell(rows, cols, i, j).Covers(px, py)
    ensures Entry(g, |cols| - 1, i, j) == CountAt(rs, px, py)
  {
    CellUncut(rows, cols, rs, area, i, j);
    CountConstantInCell(rs, Cell(rows, cols, i, j), px, py);
  }

  // ---- scores ----

  /** Where a span of the given size starts when it grows from interval k forwards or backwards. */
  function Anchor(lines: seq<int>, k: int, size: int, forward: bool): int
    requires 0 <= k < |lines| - 1
  {
    if forward then lines[k] else lines[k + 1] - size
  }

  predicate Fits(lines: seq<int>, pos: int, size: int)
    requires |lines| > 0
  {
    lines[0] <= pos && pos + size <= lines[|lines| - 1]
  }

  /** The value of growing a width x height rectangle from cell (i, j) in one of four directions. */
  ghost function Score(rs: seq<Rect>, rows: seq<int>, cols: seq<int>, i: int, j: int,
                       width: int, height: int, right: bool, down: bool): int
    requires 0 <= i < |rows| - 1 && 0 <= j < |cols| - 1
  {
    var x := Anchor(cols, j, width, right);
    var y := Anchor(rows, i, height, down);
    if height <= 0 then 0
    else if Fits(cols, x, width) && Fits(rows, y, height) then Total(rs, At(x, y, width, height))
    else INT_MAX
  }

  /** A span that stays inside the area and touches a line is an anchored span. */
  lemma TouchIsAnchor(lines: seq<int>, lo: int, hi: int, pos: int, size: int) returns (k: int, forward: bool)
    requires Lines(lines, lo, hi) && 0 < size
    requires lo <= pos && pos + size <= hi
    requires Touches(lines, pos, size)
    ensures 0 <= k < |lines| - 1 && Anchor(lines, k, size, forward) == pos
  {
    if pos in lines {
      k :| 0 <= k < |lines| && lines[k] == pos;
      forward := true;
    } else {
      var m :| 0 <= m < |lines| && lines[m] == pos + size;
      k, forward := m - 1, false;
    }
  }

  /**
   Nothing is lost by trying only the four corner alignments of every cell: some
   alignment is at least as good as any position in the usable area.
   */
  lemma CornerIsAsGood(rs: seq<Rect>, rows: seq<int>, cols: seq<int>, area: Box,
                       x: int, y: int, width: int, height: int)
    returns (i: int, j: int, right: bool, down: bool)
    requires IsGrid(rows, cols, rs, area)
    requires 0 < width && 0 < height
    requires area.x <= x && x + width <= area.Right()
    requires area.y <= y && y + height <= area.Bottom()
    ensures 0 <= i < |rows| - 1 && 0 <= j < |cols| - 1
    ensures Score(rs, rows, cols, i, j, width, height, right, down) <= Total(rs, At(x, y, width, height))
  {
    var bx := BestOnLine(rs, cols, area.x, area.Right(), x, y, width, height);
    var best := BestOnRow(rs, rows, area.y, area.Bottom(), bx, y, width, height);
    j, right := TouchIsAnchor(cols, area.x, area.Right(), bx, width);
    i, down := TouchIsAnchor(rows, area.y, area.Bottom(), best, height);
  }

  /** A rectangle no larger than the cell scores the same in all four directions. */
  lemma SmallScoresSame(rs: seq<Rect>, rows: seq<int>, cols: seq<int>, area: Box, i: int, j: int,
                        width: int, height: int, right: bool, down: bool)
    requires IsGrid(rows, cols, rs, area)
    requires 0 <= i < |rows| - 1 && 0 <= j < |cols| - 1
    requires 0 < width <= cols[j + 1] - cols[j] && 0 < height <= rows[i + 1] - rows[i]
    ensures Score(rs, rows, cols, i, j, width, height, right, down)
         == CountAt(rs, cols[j], rows[i]) * (height * width)
  {
    CellUncut(rows, cols, rs, area, i, j);
    LineBounds(cols, area.x, area.Right(), j);
    LineBounds(cols, area.x, area.Right(), j + 1);
    LineBounds(rows, area.y, area.Bottom(), i);
    LineBounds(rows, area.y, area.Bottom(), i + 1);
    var x, y := Anchor(cols, j, width, right), Anchor(rows, i, height, down);
    TotalInCell(rs, Cell(rows, cols, i, j), At(x, y, width, height));
  }
}
