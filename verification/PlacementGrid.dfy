/** The first half of least-overlap placement (src/placement.c): building the grid. */
module PlacementGrid {
  import opened Geometry
  import opened Overlap
  import opened Grid

  /** The parts of a view that placement reads. */
  datatype View = View(id: nat, output: nat, workspace: nat, focusable: bool,
                       pending: Box, margin: Border, shaded: bool)
  {
    /** view_effective_height with use_pending */
    function EffectiveHeight(): int {
      if shaded then 0 else pending.height
    }

    /** The window with its decorations. */
    function Extent(): Rect {
      Rect(pending.x - margin.left,
           pending.y - margin.top,
           pending.x + margin.right + pending.width,
           pending.y + margin.bottom + EffectiveHeight())
    }
  }

  /** What the loops over server.views see besides the view being placed. */
  datatype Desk = Desk(views: seq<View>, self: nat, output: Output, workspace: nat)
  {
    /** A focusable view of the current workspace, on the output, that is not the view being placed. */
    predicate Obstacle(v: View) {
      v.focusable && v.workspace == workspace && v.id != self && v.output == output.id
    }

    function Obstacles(n: nat): (rs: seq<Rect>)
      requires n <= |views|
      ensures |rs| <= n
    {
      if n == 0 then []
      else if Obstacle(views[n - 1]) then Obstacles(n - 1) + [views[n - 1].Extent()]
      else Obstacles(n - 1)
    }

    function Others(): seq<Rect> {
      Obstacles(|views|)
    }

    /** The sizes an output can report. */
    predicate Sane() {
      output.area.width >= 0 && output.area.height >= 0
    }
  }

  // ---- count_views ----

  method CountViews(d: Desk) returns (n: nat)
    ensures n == if d.output.usable then |d.Others()| else 0
  {
    if !d.output.usable {
      return 0;
    }
    n := 0;
    for k := 0 to |d.views|
      invariant n == |d.Obstacles(k)|
    {
      if d.Obstacle(d.views[k]) {
        n := n + 1;
      }
    }
  }

  // ---- order_grid ----

  predicate SortedUpTo(s: seq<int>, n: int)
  {
    forall a, b :: 0 <= a < b < n <= |s| ==> s[a] <= s[b]
  }

  /** Stands in for qsort over the first n elements. */
  method SortPrefix(a: array<int>, n: nat)
    requires n <= a.Length
    modifies a
    ensures SortedUpTo(a[..], n)
    ensures multiset(a[..n]) == multiset(old(a[..n]))
    ensures forall k :: n <= k < a.Length ==> a[k] == old(a[k])
  {
    for i := 0 to n
      invariant SortedUpTo(a[..], i)
      invariant multiset(a[..n]) == multiset(old(a[..n]))
      invariant forall k :: n <= k < a.Length ==> a[k] == old(a[k])
    {
      Sink(a, i, n);
    }
  }

  method SwapBack(a: array<int>, j: nat, n: nat)
    requires 0 < j < n <= a.Length
    modifies a
    ensures a[..] == old(a[..])[j - 1 := old(a[j])][j := old(a[j - 1])]
    ensures multiset(a[..n]) == multiset(old(a[..n]))
  {
    ghost var before := a[..n];
    a[j - 1], a[j] := a[j], a[j - 1];
    assert a[..n] == before[j - 1 := before[j]][j := before[j - 1]];
  }

  /** Moves element i down to its place among the sorted elements before it. */
  method Sink(a: array<int>, i: nat, n: nat)
    requires i < n <= a.Length && SortedUpTo(a[..], i)
    modifies a
    ensures SortedUpTo(a[..], i + 1)
    ensures multiset(a[..n]) == multiset(old(a[..n]))
    ensures forall k :: n <= k < a.Length ==> a[k] == old(a[k])
  {
    var j := i;
    while j > 0 && a[j - 1] > a[j]
      invariant 0 <= j <= i
      invariant forall p, q :: 0 <= p < q <= i && q != j ==> a[p] <= a[q]
      invariant multiset(a[..n]) == multiset(old(a[..n]))
      invariant forall k :: n <= k < a.Length ==> a[k] == old(a[k])
    {
      SwapBack(a, j, n);
      j := j - 1;
    }
  }

  /** The values of the first n elements. */
  ghost predicate SameValues(s: seq<int>, t: seq<int>) {
    forall v :: v in s <==> v in t
  }

  lemma SameBag(s: seq<int>, t: seq<int>)
    requires multiset(s) == multiset(t)
    ensures SameValues(s, t)
  {
    forall v ensures v in s <==> v in t {
      assert v in s <==> v in multiset(s);
      assert v in t <==> v in multiset(t);
    }
  }

  /** The first j elements of a sorted sequence without repetitions. */
  function Dedupe(s: seq<int>, j: nat): (kept: seq<int>)
    requires j <= |s|
    ensures |kept| <= j
  {
    if j == 0 then []
    else if j >= 2 && s[j - 2] == s[j - 1] then Dedupe(s, j - 1)
    else Dedupe(s, j - 1) + [s[j - 1]]
  }

  /** A maximal run of equal elements contributes one element. */
  lemma {:induction false} DedupeRun(s: seq<int>, j: nat, next: nat)
    requires j < next <= |s|
    requires j == 0 || s[j - 1] != s[j]
    requires forall k :: j <= k < next ==> s[k] == s[j]
    ensures Dedupe(s, next) == Dedupe(s, j) + [s[j]]
  {
    if j + 1 < next {
      DedupeRun(s, j, next - 1);
      assert s[next - 2] == s[next - 1];
    }
  }

  lemma {:induction false} DedupeIncreasing(s: seq<int>, j: nat)
    requires SortedUpTo(s, |s|) && j <= |s|
    ensures Increasing(Dedupe(s, j))
    ensures SameValues(Dedupe(s, j), s[..j])
    ensures j > 0 ==> |Dedupe(s, j)| > 0 && Dedupe(s, j)[|Dedupe(s, j)| - 1] == s[j - 1]
  {
    if j > 0 {
      DedupeIncreasing(s, j - 1);
      assert s[..j] == s[..j - 1] + [s[j - 1]];
      assert j >= 2 ==> s[j - 2] <= s[j - 1];
    }
  }

  lemma DedupeAll(s: seq<int>, t: seq<int>)
    requires SortedUpTo(s, |s|) && multiset(s) == multiset(t)
    ensures Increasing(Dedupe(s, |s|)) && SameValues(Dedupe(s, |s|), t)
  {
    DedupeIncreasing(s, |s|);
    assert s[..|s|] == s;
    SameBag(s, t);
  }

  /** The inner loop of order_grid: past the elements equal to the one at j. */
  method SkipRun(edges: array<int>, nedges: nat, j: nat) returns (next: nat)
    requires j < nedges <= edges.Length
    ensures j < next <= nedges
    ensures forall k :: j <= k < next ==> edges[k] == edges[j]
    ensures next < nedges ==> edges[next] != edges[j]
  {
    next := j + 1;
    while next < nedges && edges[next] == edges[j]
      invariant j < next <= nedges
      invariant forall k :: j <= k < next ==> edges[k] == edges[j]
    {
      next := next + 1;
    }
  }

  method OrderGrid(edges: array<int>, nedges: nat) returns (i: nat)
    requires nedges <= edges.Length
    modifies edges
    ensures i <= nedges
    ensures Increasing(edges[..i])
    ensures SameValues(edges[..i], old(edges[..nedges]))
  {
    SortPrefix(edges, nedges);
    ghost var s := edges[..nedges];
    i := DedupePrefix(edges, nedges);
    DedupeAll(s, old(edges[..nedges]));
  }

  /** The second half of order_grid: duplicates of a sorted prefix are dropped in place. */
  method DedupePrefix(edges: array<int>, nedges: nat) returns (i: nat)
    requires nedges <= edges.Length
    modifies edges
    ensures i <= nedges && edges[..i] == Dedupe(old(edges[..nedges]), nedges)
  {
    ghost var s := edges[..nedges];
    i := 0;
    var j := 0;
    while j < nedges
      invariant 0 <= i <= j <= nedges
      invariant forall k :: j <= k < nedges ==> edges[k] == s[k]
      invariant edges[..i] == Dedupe(s, j)
      invariant 0 < j < nedges ==> s[j - 1] != s[j]
    {
      var next := SkipRun(edges, nedges, j);
      DedupeRun(s, j, next);
      var last := edges[j];
      edges[i] := last;
      i := i + 1;
      j := next;
    }
  }

  // ---- build_grid ----

  /** The rectangle as seen along one axis: as it is for columns, transposed for rows. */
  function Seen(r: Rect, flip: bool): Rect {
    if flip then r.Transpose() else r
  }

  /** Lines collected along one axis: both ends of the area and every window edge inside it. */
  ghost predicate Collected(s: seq<int>, rs: seq<Rect>, lo: int, hi: int, flip: bool) {
    && lo in s && hi in s
    && (forall v :: v in s ==> lo <= v <= hi)
    && (forall r :: r in rs ==> Listed(Seen(r, flip), s, lo, hi))
  }

  /** An edge contributes a line only if it is strictly inside the area. */
  function LineOf(v: int, lo: int, hi: int): seq<int> {
    if lo < v < hi then [v] else []
  }

  function EdgeLines(r: Rect, lo: int, hi: int): (s: seq<int>)
    ensures |s| <= 2
  {
    LineOf(r.x1, lo, hi) + LineOf(r.x2, lo, hi)
  }

  /** The lines along one axis, before sorting. */
  function AxisLines(rs: seq<Rect>, lo: int, hi: int, flip: bool): seq<int> {
    if rs == [] then [lo, hi]
    else AxisLines(rs[..|rs| - 1], lo, hi, flip) + EdgeLines(Seen(rs[|rs| - 1], flip), lo, hi)
  }

  lemma AxisLinesAppend(rs: seq<Rect>, r: Rect, lo: int, hi: int, flip: bool)
    ensures AxisLines(rs + [r], lo, hi, flip) == AxisLines(rs, lo, hi, flip) + EdgeLines(Seen(r, flip), lo, hi)
  {
    assert (rs + [r])[..|rs|] == rs;
  }

  lemma {:induction false} AxisLinesCollect(rs: seq<Rect>, lo: int, hi: int, flip: bool)
    requires lo <= hi
    ensures Collected(AxisLines(rs, lo, hi, flip), rs, lo, hi, flip)
  {
    if rs != [] {
      var n := |rs| - 1;
      AxisLinesCollect(rs[..n], lo, hi, flip);
      var s, t := AxisLines(rs[..n], lo, hi, flip), AxisLines(rs, lo, hi, flip);
      forall q | q in rs ensures Listed(Seen(q, flip), t, lo, hi) {
        if q != rs[n] {
          assert q in rs[..n];
          assert Listed(Seen(q, flip), s, lo, hi);
        }
      }
    }
  }

  lemma OrderedIsLines(s: seq<int>, t: seq<int>, rs: seq<Rect>, lo: int, hi: int, flip: bool)
    requires Collected(s, rs, lo, hi, flip)
    requires Increasing(t) && SameValues(t, s)
    ensures Lines(t, lo, hi)
    ensures forall r :: r in rs ==> Listed(Seen(r, flip), t, lo, hi)
  {
    assert lo in t && hi in t;
    assert t[0] in t && t[|t| - 1] in t;
    forall r | r in rs ensures Listed(Seen(r, flip), t, lo, hi) {
      assert Listed(Seen(r, flip), s, lo, hi);
    }
  }

  method AddLine(lines: array<int>, n: nat, v: int, lo: int, hi: int) returns (m: nat)
    requires n < lines.Length
    modifies lines
    ensures n <= m <= n + 1 && lines[..m] == old(lines[..n]) + LineOf(v, lo, hi)
  {
    m := n;
    if v > lo && v < hi {
      lines[m] := v;
      m := m + 1;
    }
  }

  /** The near and the far edge of a window along one axis. */
  method AddEdges(lines: array<int>, n: nat, r: Rect, lo: int, hi: int) returns (m: nat)
    requires n + 2 <= lines.Length
    modifies lines
    ensures n <= m <= n + 2
    ensures lines[..m] == old(lines[..n]) + EdgeLines(r, lo, hi)
  {
    m := AddLine(lines, n, r.x1, lo, hi);
    m := AddLine(lines, m, r.x2, lo, hi);
  }

  lemma ObstaclesMonotone(d: Desk, k: nat, n: nat)
    requires k <= n <= |d.views|
    ensures |d.Obstacles(k)| <= |d.Obstacles(n)|
    decreases n
  {
    if k < n {
      ObstaclesMonotone(d, k, n - 1);
    }
  }

  function CellCount(nrRows: nat, nrCols: nat): nat
    requires 1 <= nrRows && 1 <= nrCols
  {
    (nrRows - 1) * (nrCols - 1)
  }

  class OverlapBitmap {
    var nrRows: nat
    var nrCols: nat
    var rows: array<int>
    var cols: array<int>
    var grid: array<int>

    constructor ()
      ensures nrRows == 0 && nrCols == 0
      ensures fresh(rows) && fresh(cols) && fresh(grid)
    {
      nrRows, nrCols := 0, 0;
      rows, cols, grid := new int[0], new int[0], new int[0];
    }

    ghost function Rows(): seq<int>
      requires nrRows <= rows.Length
      reads this, rows
    {
      rows[..nrRows]
    }

    ghost function Cols(): seq<int>
      requires nrCols <= cols.Length
      reads this, cols
    {
      cols[..nrCols]
    }

    /** The lines form a grid for the windows of d, and there is one counter per cell. */
    ghost predicate Gridded(d: Desk)
      reads this, rows, cols
    {
      && 1 <= nrRows <= rows.Length && 1 <= nrCols <= cols.Length
      && rows != cols && rows != grid && cols != grid
      && IsGrid(Rows(), Cols(), d.Others(), d.output.area)
      && grid.Length == CellCount(nrRows, nrCols)
    }

    ghost predicate Ready(d: Desk)
      reads this, rows, cols
    {
      if d.output.usable && d.Others() != [] then Gridded(d) else nrRows == nrCols == 0
    }

    /** build_grid: the asserts on the array bounds are the index checks here. */
    method BuildGrid(d: Desk)
      requires d.Sane()
      modifies this
      ensures Ready(d)
      ensures fresh(rows) && fresh(cols) && fresh(grid)
      ensures nrRows <= 2 * |d.Others()| + 2 && nrCols <= 2 * |d.Others()| + 2
      ensures forall k :: 0 <= k < grid.Length ==> grid[k] == 0
    {
      nrRows, nrCols := 0, 0;
      rows, cols, grid := new int[0], new int[0], new int[0];
      if !d.output.usable {
        return;
      }
      var nviews := CountViews(d);
      if nviews < 1 {
        return;
      }
      var rs, nr, cs, nc := CollectLines(d, nviews);
      var n, m := OrderAxes(d, rs, nr, cs, nc);
      Install(d, rs, n, cs, m);
    }

    method Install(d: Desk, rs: array<int>, n: nat, cs: array<int>, m: nat)
      requires rs != cs && 1 <= n <= rs.Length && 1 <= m <= cs.Length
      requires IsGrid(rs[..n], cs[..m], d.Others(), d.output.area)
      modifies this
      ensures Gridded(d)
      ensures rows == rs && cols == cs && nrRows == n && nrCols == m && fresh(grid)
      ensures forall k :: 0 <= k < grid.Length ==> grid[k] == 0
    {
      nrRows, nrCols, rows, cols := n, m, rs, cs;
      grid := new int[CellCount(n, m)](_ => 0);
    }
  }

  /** The lines of the first k views are collected, with room for all that are still to come. */
  ghost predicate Collecting(d: Desk, k: nat, rs: array<int>, nr: nat, cs: array<int>, nc: nat)
    requires k <= |d.views|
    reads rs, cs
  {
    && rs != cs && rs.Length == cs.Length == 2 * |d.Others()| + 2
    && nr <= 2 * |d.Obstacles(k)| + 2 && nc <= 2 * |d.Obstacles(k)| + 2
    && nr <= rs.Length && nc <= cs.Length
    && cs[..nc] == AxisLines(d.Obstacles(k), d.output.area.x, d.output.area.Right(), false)
    && rs[..nr] == AxisLines(d.Obstacles(k), d.output.area.y, d.output.area.Bottom(), true)
  }

  /** One round of the loop that collects lines: both axes, for the view at index k. */
  method AddView(d: Desk, k: nat, rs: array<int>, nr: nat, cs: array<int>, nc: nat) returns (nr': nat, nc': nat)
    requires k < |d.views| && Collecting(d, k, rs, nr, cs, nc)
    modifies rs, cs
    ensures Collecting(d, k + 1, rs, nr', cs, nc')
  {
    var v, area := d.views[k], d.output.area;
    if !d.Obstacle(v) {
      return nr, nc;
    }
    ObstaclesMonotone(d, k + 1, |d.views|);
    AxisLinesAppend(d.Obstacles(k), v.Extent(), area.x, area.Right(), false);
    AxisLinesAppend(d.Obstacles(k), v.Extent(), area.y, area.Bottom(), true);
    nc' := AddEdges(cs, nc, v.Extent(), area.x, area.Right());
    nr' := AddEdges(rs, nr, v.Extent().Transpose(), area.y, area.Bottom());
  }

  method CollectLines(d: Desk, nviews: nat) returns (rs: array<int>, nr: nat, cs: array<int>, nc: nat)
    requires nviews == |d.Others()|
    ensures fresh(rs) && fresh(cs) && rs != cs
    ensures nr <= rs.Length == 2 * nviews + 2 && nc <= cs.Length == 2 * nviews + 2
    ensures cs[..nc] == AxisLines(d.Others(), d.output.area.x, d.output.area.Right(), false)
    ensures rs[..nr] == AxisLines(d.Others(), d.output.area.y, d.output.area.Bottom(), true)
  {
    var maxRc := 2 * nviews + 2;
    cs := StartAxis(maxRc, d.output.area.x, d.output.area.Right());
    rs := StartAxis(maxRc, d.output.area.y, d.output.area.Bottom());
    nr, nc := 2, 2;
    for k := 0 to |d.views|
      invariant Collecting(d, k, rs, nr, cs, nc)
    {
      nr, nc := AddView(d, k, rs, nr, cs, nc);
    }
  }

  /** Both ends of one axis, with room for the window edges. */
  method StartAxis(maxRc: nat, lo: int, hi: int) returns (lines: array<int>)
    requires 2 <= maxRc
    ensures fresh(lines) && lines.Length == maxRc && lines[..2] == [lo, hi]
  {
    lines := new int[maxRc];
    lines[0], lines[1] := lo, hi;
  }

  method OrderAxes(d: Desk, rs: array<int>, nr: nat, cs: array<int>, nc: nat) returns (n: nat, m: nat)
    requires d.Sane()
    requires rs != cs && nr <= rs.Length && nc <= cs.Length
    requires cs[..nc] == AxisLines(d.Others(), d.output.area.x, d.output.area.Right(), false)
    requires rs[..nr] == AxisLines(d.Others(), d.output.area.y, d.output.area.Bottom(), true)
    requires nr <= 2 * |d.Others()| + 2 && nc <= 2 * |d.Others()| + 2
    modifies rs, cs
    ensures 1 <= n <= nr && 1 <= m <= nc
    ensures n <= 2 * |d.Others()| + 2 && m <= 2 * |d.Others()| + 2
    ensures IsGrid(rs[..n], cs[..m], d.Others(), d.output.area)
  {
    n := OrderGrid(rs, nr);
    m := OrderGrid(cs, nc);
    GridFromLines(d, rs[..n], cs[..m]);
  }

  lemma GridFromLines(d: Desk, rows: seq<int>, cols: seq<int>)
    requires d.Sane()
    requires Increasing(cols) && SameValues(cols, AxisLines(d.Others(), d.output.area.x, d.output.area.Right(), false))
    requires Increasing(rows) && SameValues(rows, AxisLines(d.Others(), d.output.area.y, d.output.area.Bottom(), true))
    ensures IsGrid(rows, cols, d.Others(), d.output.area)
    ensures |rows| >= 1 && |cols| >= 1
  {
    var rs, area := d.Others(), d.output.area;
    AxisLinesCollect(rs, area.x, area.Right(), false);
    OrderedIsLines(AxisLines(rs, area.x, area.Right(), false), cols, rs, area.x, area.Right(), false);
    AxisLinesCollect(rs, area.y, area.Bottom(), true);
    OrderedIsLines(AxisLines(rs, area.y, area.Bottom(), true), rows, rs, area.y, area.Bottom(), true);
    forall r | r in rs ensures Listed(r, cols, area.x, area.Right()) {
      assert Listed(Seen(r, false), cols, area.x, area.Right());
    }
    forall r | r in rs ensures Listed(r.Transpose(), rows, area.y, area.Bottom()) {
      assert Listed(Seen(r, true), rows, area.y, area.Bottom());
    }
  }
}
