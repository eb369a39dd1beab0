/** The second half of least-overlap placement (src/placement.c): counting windows per cell and searching. */
module Placement {
  import opened Geometry
  import opened Overlap
  import opened Grid
  import opened PlacementGrid

  // ---- find_interval ----

  /** Rightmost binary search: the largest index whose edge is <= val, or -1. */
  method FindInterval(edges: array<int>, nedges: nat, val: real) returns (r: int)
    requires nedges <= edges.Length && Increasing(edges[..nedges])
    ensures -1 <= r < nedges
    ensures forall k :: 0 <= k < nedges ==> (k <= r <==> edges[k] as real <= val)
  {
    var lo, hi := 0, nedges;
    while lo < hi
      invariant 0 <= lo <= hi <= nedges
      invariant forall k :: 0 <= k < lo ==> edges[k] as real <= val
      invariant forall k :: hi <= k < nedges ==> edges[k] as real > val
    {
      var m := (lo + hi) / 2;
      assert forall k :: 0 <= k < nedges ==> edges[k] == edges[..nedges][k];
      if edges[m] as real > val {
        hi := m;
      } else {
        lo := m + 1;
      }
    }
    r := hi - 1;
  }

  // ---- build_overlap ----

  /** The half-open range of intervals that [lo, hi) covers, as the two perturbed searches find it. */
  method Span(edges: array<int>, nedges: nat, lo: int, hi: int, ghost min: int, ghost max: int) returns (first: int, end: int)
    requires nedges <= edges.Length && Lines(edges[..nedges], min, max)
    requires min < lo < max ==> lo in edges[..nedges]
    ensures 0 <= first && end <= nedges - 1
    ensures forall k :: 0 <= k < nedges - 1 ==> (first <= k < end <==> lo <= edges[k] < hi)
  {
    ghost var s := edges[..nedges];
    var f := FindInterval(edges, nedges, lo as real + 0.5);
    first := Max(f, 0);
    var l := FindInterval(edges, nedges, hi as real - 0.5);
    end := Min(nedges - 1, l + 1);
    forall k | 0 <= k < nedges - 1 ensures first <= k <==> lo <= edges[k] {
      SpanStart(s, lo, min, max, f, k);
      assert s[k] == edges[k];
    }
  }

  lemma SpanStart(s: seq<int>, lo: int, min: int, max: int, f: int, k: int)
    requires Lines(s, min, max) && -1 <= f < |s|
    requires min < lo < max ==> lo in s
    requires forall j :: 0 <= j < |s| ==> (j <= f <==> s[j] as real <= lo as real + 0.5)
    requires 0 <= k < |s| - 1
    ensures Max(f, 0) <= k <==> lo <= s[k]
  {
    forall j | 0 <= j < |s| ensures j <= f <==> s[j] <= lo {
      assert s[j] as real <= lo as real + 0.5 <==> s[j] <= lo;
    }
    LineBounds(s, min, max, k);
    assert f < 0 ==> lo < s[0];
    assert k < f ==> s[k] < s[f];
    if k == f {
      LineBounds(s, min, max, k + 1);
      assert !(k + 1 <= f);
      if min < lo < max {
        NoLineBetween(s, k, lo);
      }
    }
  }

  /** Counters after the cells before (i, j) of the block [fr, lr) x [fc, lc) have been incremented. */
  predicate Bumped(fr: int, fc: int, lc: int, i: int, j: int, k: int, l: int) {
    fc <= l < lc && (fr <= k < i || (k == i && l < j))
  }

  ghost predicate BumpedGrid(was: seq<int>, now: seq<int>, nri: int, nci: int, fr: int, fc: int, lc: int, i: int, j: int) {
    && |now| == |was| == nri * nci
    && forall k, l :: 0 <= k < nri && 0 <= l < nci ==>
         Entry(now, nci, k, l) == Entry(was, nci, k, l) + if Bumped(fr, fc, lc, i, j, k, l) then 1 else 0
  }

  lemma BumpOne(was: seq<int>, now: seq<int>, nri: int, nci: int, fr: int, fc: int, lc: int, i: int, j: int)
    requires BumpedGrid(was, now, nri, nci, fr, fc, lc, i, j)
    requires 0 <= fr <= i < nri && 0 <= fc <= j < lc <= nci
    requires 0 <= i * nci + j < |now|
    ensures BumpedGrid(was, now[i * nci + j := now[i * nci + j] + 1], nri, nci, fr, fc, lc, i, j + 1)
  {
    var next := now[i * nci + j := now[i * nci + j] + 1];
    forall k, l | 0 <= k < nri && 0 <= l < nci
      ensures Entry(next, nci, k, l) == Entry(was, nci, k, l) + if Bumped(fr, fc, lc, i, j + 1, k, l) then 1 else 0
    {
      IndexIn(nri, nci, k, l);
      IndexInjective(nci, i, j, k, l);
      assert Entry(now, nci, k, l) == Entry(was, nci, k, l) + if Bumped(fr, fc, lc, i, j, k, l) then 1 else 0;
    }
  }

  /** The nested loops that count one window. */
  method BumpBlock(grid: array<int>, nri: nat, nci: nat, fr: int, lr: int, fc: int, lc: int)
    requires grid.Length == nri * nci
    requires 0 <= fr && lr <= nri && 0 <= fc && lc <= nci
    modifies grid
    ensures BumpedGrid(old(grid[..]), grid[..], nri, nci, fr, fc, lc, lr, 0)
  {
    ghost var was := grid[..];
    var i := fr;
    while i < lr
      invariant i == fr || fr < i <= lr
      invariant BumpedGrid(was, grid[..], nri, nci, fr, fc, lc, i, 0)
    {
      var j := fc;
      while j < lc
        invariant j == fc || fc < j <= lc
        invariant BumpedGrid(was, grid[..], nri, nci, fr, fc, lc, i, j)
      {
        IndexIn(nri, nci, i, j);
        BumpOne(was, grid[..], nri, nci, fr, fc, lc, i, j);
        ghost var before := grid[..];
        grid[i * nci + j] := grid[i * nci + j] + 1;
        assert grid[..] == before[i * nci + j := before[i * nci + j] + 1];
        j := j + 1;
      }
      i := i + 1;
    }
  }

  lemma CountAppend(rs: seq<Rect>, r: Rect, px: int, py: int)
    ensures CountAt(rs + [r], px, py) == CountAt(rs, px, py) + if r.Covers(px, py) then 1 else 0
  {
    assert (rs + [r])[..|rs|] == rs;
  }

  /** Counting one more window keeps the bitmap exact. */
  lemma CountedStep(was: seq<int>, now: seq<int>, rs: seq<Rect>, r: Rect, rows: seq<int>, cols: seq<int>,
                    fr: int, lr: int, fc: int, lc: int)
    requires Counted(was, rs, rows, cols)
    requires BumpedGrid(was, now, |rows| - 1, |cols| - 1, fr, fc, lc, lr, 0)
    requires 0 <= fc
    requires forall k :: 0 <= k < |rows| - 1 ==> (fr <= k < lr <==> r.y1 <= rows[k] < r.y2)
    requires forall k :: 0 <= k < |cols| - 1 ==> (fc <= k < lc <==> r.x1 <= cols[k] < r.x2)
    ensures Counted(now, rs + [r], rows, cols)
  {
    forall i, j | 0 <= i < |rows| - 1 && 0 <= j < |cols| - 1
      ensures Entry(now, |cols| - 1, i, j) == CountAt(rs + [r], cols[j], rows[i])
    {
      CountAppend(rs, r, cols[j], rows[i]);
      assert Entry(was, |cols| - 1, i, j) == CountAt(rs, cols[j], rows[i]);
    }
  }

  lemma CountedNone(g: seq<int>, rows: seq<int>, cols: seq<int>)
    requires |rows| >= 1 && |cols| >= 1 && |g| == (|rows| - 1) * (|cols| - 1)
    requires forall k :: 0 <= k < |g| ==> g[k] == 0
    ensures Counted(g, [], rows, cols)
  {
  }

  method BuildOverlap(bmp: OverlapBitmap, d: Desk)
    requires bmp.Ready(d)
    requires forall k :: 0 <= k < bmp.grid.Length ==> bmp.grid[k] == 0
    modifies bmp.grid
    ensures bmp.Ready(d)
    ensures bmp.nrRows > 0 ==> Counted(bmp.grid[..], d.Others(), bmp.Rows(), bmp.Cols())
  {
    if bmp.nrRows < 1 || bmp.nrCols < 1 {
      return;
    }
    if !d.output.usable {
      return;
    }
    ghost var rows, cols, area := bmp.Rows(), bmp.Cols(), d.output.area;
    CountedNone(bmp.grid[..], rows, cols);
    for k := 0 to |d.views|
      invariant Counted(bmp.grid[..], d.Obstacles(k), rows, cols)
    {
      var v := d.views[k];
      if d.Obstacle(v) {
        ObstacleListed(d, k, rows, cols);
        CountView(bmp, v.Extent(), d.Obstacles(k), area);
      }
    }
  }

  lemma ObstacleListed(d: Desk, k: nat, rows: seq<int>, cols: seq<int>)
    requires k < |d.views| && d.Obstacle(d.views[k])
    requires IsGrid(rows, cols, d.Others(), d.output.area)
    ensures Listed(d.views[k].Extent(), cols, d.output.area.x, d.output.area.Right())
    ensures Listed(d.views[k].Extent().Transpose(), rows, d.output.area.y, d.output.area.Bottom())
  {
    ObstacleAmong(d, k, |d.views|);
  }

  lemma ObstacleAmong(d: Desk, k: nat, n: nat)
    requires k < n <= |d.views| && d.Obstacle(d.views[k])
    ensures d.views[k].Extent() in d.Obstacles(n)
    decreases n
  {
    if k < n - 1 {
      ObstacleAmong(d, k, n - 1);
    }
  }

  method CountView(bmp: OverlapBitmap, r: Rect, ghost seen: seq<Rect>, ghost area: Box)
    requires 1 <= bmp.nrRows <= bmp.rows.Length && 1 <= bmp.nrCols <= bmp.cols.Length
    requires bmp.grid != bmp.rows && bmp.grid != bmp.cols
    requires Lines(bmp.Cols(), area.x, area.Right()) && Lines(bmp.Rows(), area.y, area.Bottom())
    requires Listed(r, bmp.Cols(), area.x, area.Right())
    requires Listed(r.Transpose(), bmp.Rows(), area.y, area.Bottom())
    requires Counted(bmp.grid[..], seen, bmp.Rows(), bmp.Cols())
    modifies bmp.grid
    ensures Counted(bmp.grid[..], seen + [r], bmp.Rows(), bmp.Cols())
  {
    var fc, lc := Span(bmp.cols, bmp.nrCols, r.x1, r.x2, area.x, area.Right());
    var fr, lr := Span(bmp.rows, bmp.nrRows, r.y1, r.y2, area.y, area.Bottom());
    ghost var was, rows, cols := bmp.grid[..], bmp.Rows(), bmp.Cols();
    BumpBlock(bmp.grid, bmp.nrRows - 1, bmp.nrCols - 1, fr, lr, fc, lc);
    CountedStep(was, bmp.grid[..], seen, r, rows, cols, fr, lr, fc, lc);
  }
}
