/**
 The measure that placement minimises: the total area by which a rectangle
 overlaps a list of windows, a window counting once for every pixel it covers.
 */
module Overlap {
  import opened Geometry

  /** A half-open rectangle [x1, x2) x [y1, y2); possibly inside out, and then it covers nothing. */
  datatype Rect = Rect(x1: int, y1: int, x2: int, y2: int)
  {
    predicate Covers(px: int, py: int) {
      x1 <= px < x2 && y1 <= py < y2
    }

    function Transpose(): Rect {
      Rect(y1, x1, y2, x2)
    }
  }

  /** Length of the intersection of [a, b) and [c, d). */
  function Len(a: int, b: int, c: int, d: int): nat {
    Max(0, Min(b, d) - Max(a, c))
  }

  /** Area of the intersection of two rectangles. */
  function Area(r: Rect, w: Rect): nat {
    Len(r.x1, r.x2, w.x1, w.x2) * Len(r.y1, r.y2, w.y1, w.y2)
  }

  /** Sum over all windows of the area they share with w. */
  function Total(rs: seq<Rect>, w: Rect): nat {
    if rs == [] then 0 else Total(rs[..|rs| - 1], w) + Area(rs[|rs| - 1], w)
  }

  /** How many windows cover one pixel. */
  function CountAt(rs: seq<Rect>, px: int, py: int): nat {
    if rs == [] then 0
    else CountAt(rs[..|rs| - 1], px, py) + if rs[|rs| - 1].Covers(px, py) then 1 else 0
  }

  /** Plain counting along one row of pixels. */
  function CountRow(rs: seq<Rect>, x1: int, x2: int, py: int): nat
    decreases x2 - x1
  {
    if x2 <= x1 then 0 else CountRow(rs, x1, x2 - 1, py) + CountAt(rs, x2 - 1, py)
  }

  /** Plain counting over all pixels of w. */
  function CountPixels(rs: seq<Rect>, w: Rect): nat
    decreases w.y2 - w.y1
  {
    if w.y2 <= w.y1 then 0
    else CountPixels(rs, w.(y2 := w.y2 - 1)) + CountRow(rs, w.x1, w.x2, w.y2 - 1)
  }

  // ---- splitting a rectangle ----

  lemma LenSplit(a: int, b: int, c: int, m: int, d: int)
    requires c <= m <= d
    ensures Len(a, b, c, d) == Len(a, b, c, m) + Len(a, b, m, d)
  {
  }

  lemma {:induction false} SplitX(rs: seq<Rect>, w: Rect, m: int)
    requires w.x1 <= m <= w.x2
    ensures Total(rs, w) == Total(rs, w.(x2 := m)) + Total(rs, w.(x1 := m))
  {
    if rs != [] {
      var r := rs[|rs| - 1];
      SplitX(rs[..|rs| - 1], w, m);
      LenSplit(r.x1, r.x2, w.x1, m, w.x2);
      Distribute(Len(r.x1, r.x2, w.x1, m), Len(r.x1, r.x2, m, w.x2), Len(r.y1, r.y2, w.y1, w.y2));
    }
  }

  lemma Distribute(a: int, b: int, c: int)
    ensures (a + b) * c == a * c + b * c
  {
  }

  lemma AreaSplitY(r: Rect, w: Rect, m: int)
    requires w.y1 <= m <= w.y2
    ensures Area(r, w) == Area(r, w.(y2 := m)) + Area(r, w.(y1 := m))
  {
    var a, b, c := Len(r.y1, r.y2, w.y1, m), Len(r.y1, r.y2, m, w.y2), Len(r.x1, r.x2, w.x1, w.x2);
    LenSplit(r.y1, r.y2, w.y1, m, w.y2);
    assert c * (a + b) == c * a + c * b;
  }

  lemma {:induction false} SplitY(rs: seq<Rect>, w: Rect, m: int)
    requires w.y1 <= m <= w.y2
    ensures Total(rs, w) == Total(rs, w.(y2 := m)) + Total(rs, w.(y1 := m))
  {
    if rs != [] {
      SplitY(rs[..|rs| - 1], w, m);
      AreaSplitY(rs[|rs| - 1], w, m);
    }
  }

  lemma {:induction false} TotalOfNothing(rs: seq<Rect>, w: Rect)
    requires w.x2 <= w.x1 || w.y2 <= w.y1
    ensures Total(rs, w) == 0
  {
    if rs != [] {
      TotalOfNothing(rs[..|rs| - 1], w);
    }
  }

  lemma {:induction false} TotalBound(rs: seq<Rect>, w: Rect)
    requires w.x1 <= w.x2 && w.y1 <= w.y2
    ensures Total(rs, w) <= |rs| * ((w.x2 - w.x1) * (w.y2 - w.y1))
  {
    if rs != [] {
      var r := rs[|rs| - 1];
      TotalBound(rs[..|rs| - 1], w);
      ProductMono(Len(r.x1, r.x2, w.x1, w.x2), w.x2 - w.x1, Len(r.y1, r.y2, w.y1, w.y2), w.y2 - w.y1);
      Distribute(|rs| - 1, 1, (w.x2 - w.x1) * (w.y2 - w.y1));
    }
  }

  lemma ProductMono(a: nat, b: nat, c: nat, d: nat)
    requires a <= b && c <= d
    ensures a * c <= b * d
  {
    assert a * c <= b * c <= b * d;
  }

  // ---- cells that no window edge crosses ----

  /** No vertical edge of r lies strictly between x1 and x2, and no horizontal one between y1 and y2. */
  predicate Uncut(r: Rect, cell: Rect) {
    && !(cell.x1 < r.x1 < cell.x2) && !(cell.x1 < r.x2 < cell.x2)
    && !(cell.y1 < r.y1 < cell.y2) && !(cell.y1 < r.y2 < cell.y2)
  }

  predicate Within(w: Rect, cell: Rect) {
    cell.x1 <= w.x1 <= w.x2 <= cell.x2 && cell.y1 <= w.y1 <= w.y2 <= cell.y2
  }

  lemma {:induction false} CountConstantInCell(rs: seq<Rect>, cell: Rect, px: int, py: int)
    requires forall r :: r in rs ==> Uncut(r, cell)
    requires cell.Covers(px, py)
    ensures CountAt(rs, px, py) == CountAt(rs, cell.x1, cell.y1)
  {
    if rs != [] {
      assert Uncut(rs[|rs| - 1], cell);
      CountConstantInCell(rs[..|rs| - 1], cell, px, py);
    }
  }

  lemma {:induction false} TotalInCell(rs: seq<Rect>, cell: Rect, w: Rect)
    requires forall r :: r in rs ==> Uncut(r, cell)
    requires Within(w, cell)
    requires cell.x1 < cell.x2 && cell.y1 < cell.y2
    ensures Total(rs, w) == CountAt(rs, cell.x1, cell.y1) * ((w.y2 - w.y1) * (w.x2 - w.x1))
  {
    var a := (w.y2 - w.y1) * (w.x2 - w.x1);
    if rs == [] {
      assert CountAt(rs, cell.x1, cell.y1) == 0;
    } else {
      var r := rs[|rs| - 1];
      assert Uncut(r, cell);
      TotalInCell(rs[..|rs| - 1], cell, w);
      AreaInCell(r, cell, w);
      Distribute(CountAt(rs[..|rs| - 1], cell.x1, cell.y1), if r.Covers(cell.x1, cell.y1) then 1 else 0, a);
    }
  }

  lemma AreaInCell(r: Rect, cell: Rect, w: Rect)
    requires Uncut(r, cell) && Within(w, cell)
    requires cell.x1 < cell.x2 && cell.y1 < cell.y2
    ensures Area(r, w) == if r.Covers(cell.x1, cell.y1) then (w.y2 - w.y1) * (w.x2 - w.x1) else 0
  {
    var lx, ly := Len(r.x1, r.x2, w.x1, w.x2), Len(r.y1, r.y2, w.y1, w.y2);
    if r.Covers(cell.x1, cell.y1) {
      assert lx == w.x2 - w.x1 && ly == w.y2 - w.y1;
    } else {
      assert lx == 0 || ly == 0;
    }
  }

  // ---- the measure is pixel counting ----

  lemma {:induction false} TotalOfPixel(rs: seq<Rect>, px: int, py: int)
    ensures Total(rs, Rect(px, py, px + 1, py + 1)) == CountAt(rs, px, py)
  {
    if rs != [] {
      TotalOfPixel(rs[..|rs| - 1], px, py);
      var r := rs[|rs| - 1];
      var lx, ly := Len(r.x1, r.x2, px, px + 1), Len(r.y1, r.y2, py, py + 1);
      assert lx == (if r.x1 <= px < r.x2 then 1 else 0) && ly == if r.y1 <= py < r.y2 then 1 else 0;
    }
  }

  lemma {:induction false} TotalOfRow(rs: seq<Rect>, x1: int, x2: int, py: int)
    ensures Total(rs, Rect(x1, py, x2, py + 1)) == CountRow(rs, x1, x2, py)
    decreases x2 - x1
  {
    var w := Rect(x1, py, x2, py + 1);
    if x2 <= x1 {
      TotalOfNothing(rs, w);
    } else {
      TotalOfRow(rs, x1, x2 - 1, py);
      TotalOfPixel(rs, x2 - 1, py);
      SplitX(rs, w, x2 - 1);
    }
  }

  /** The sum of intersection areas is the number of (window, pixel) pairs, counted one by one. */
  lemma {:induction false} TotalIsPixelCount(rs: seq<Rect>, w: Rect)
    ensures Total(rs, w) == CountPixels(rs, w)
    decreases w.y2 - w.y1
  {
    if w.y2 <= w.y1 {
      TotalOfNothing(rs, w);
    } else {
      TotalIsPixelCount(rs, w.(y2 := w.y2 - 1));
      TotalOfRow(rs, w.x1, w.x2, w.y2 - 1);
      SplitY(rs, w, w.y2 - 1);
    }
  }

  // ---- piecewise linearity: some breakpoint is at least as good as any position ----

  /** The two vertical edges of a window of width `width` at x, against the edges of r. */
  predicate KinkX(r: Rect, x: int, width: int) {
    x == r.x1 || x == r.x2 || x + width == r.x1 || x + width == r.x2
  }

  lemma LenAffine(a: int, b: int, x: int, width: int)
    requires x != a && x != b && x + width != a && x + width != b
    ensures Len(a, b, x - 1, x - 1 + width) + Len(a, b, x + 1, x + 1 + width) == 2 * Len(a, b, x, x + width)
  {
  }

  function At(x: int, y: int, width: int, height: int): Rect {
    Rect(x, y, x + width, y + height)
  }

  lemma AreaAffine(r: Rect, x: int, y: int, width: int, height: int)
    requires !KinkX(r, x, width)
    ensures Area(r, At(x - 1, y, width, height)) + Area(r, At(x + 1, y, width, height))
         == 2 * Area(r, At(x, y, width, height))
  {
    LenAffine(r.x1, r.x2, x, width);
    CombineAffine(Len(r.x1, r.x2, x - 1, x - 1 + width), Len(r.x1, r.x2, x + 1, x + 1 + width),
                  Len(r.x1, r.x2, x, x + width), Len(r.y1, r.y2, y, y + height));
  }

  lemma CombineAffine(p: int, q: int, m: int, c: int)
    requires p + q == 2 * m
    ensures p * c + q * c == 2 * (m * c)
  {
    assert p * c + q * c == (p + q) * c;
    assert (2 * m) * c == 2 * (m * c);
  }

  /** Away from every edge the total is affine in x: its second difference is zero. */
  lemma {:induction false} TotalAffine(rs: seq<Rect>, x: int, y: int, width: int, height: int)
    requires forall r :: r in rs ==> !KinkX(r, x, width)
    ensures Total(rs, At(x - 1, y, width, height)) + Total(rs, At(x + 1, y, width, height))
         == 2 * Total(rs, At(x, y, width, height))
  {
    if rs != [] {
      assert !KinkX(rs[|rs| - 1], x, width);
      TotalAffine(rs[..|rs| - 1], x, y, width, height);
      AreaAffine(rs[|rs| - 1], x, y, width, height);
    }
  }

  /** x is a place where the window touches one of the listed lines. */
  predicate Touches(lines: seq<int>, x: int, width: int) {
    x in lines || x + width in lines
  }

  /** Every vertical edge of r strictly between lo and hi is listed. */
  predicate Listed(r: Rect, lines: seq<int>, lo: int, hi: int) {
    && (lo < r.x1 < hi ==> r.x1 in lines)
    && (lo < r.x2 < hi ==> r.x2 in lines)
  }

  lemma {:induction false} SlideLeft(rs: seq<Rect>, lines: seq<int>, lo: int, hi: int,
                                     x: int, y: int, width: int, height: int) returns (best: int)
    requires forall r :: r in rs ==> Listed(r, lines, lo, hi)
    requires lo in lines && hi in lines && 0 < width
    requires lo <= x && x + 1 + width <= hi
    requires Total(rs, At(x, y, width, height)) <= Total(rs, At(x + 1, y, width, height))
    ensures lo <= best && best + width <= hi && Touches(lines, best, width)
    ensures Total(rs, At(best, y, width, height)) <= Total(rs, At(x, y, width, height))
    decreases x - lo
  {
    if Touches(lines, x, width) {
      best := x;
    } else {
      forall r | r in rs ensures !KinkX(r, x, width) {
        assert Listed(r, lines, lo, hi);
      }
      TotalAffine(rs, x, y, width, height);
      best := SlideLeft(rs, lines, lo, hi, x - 1, y, width, height);
    }
  }

  lemma {:induction false} SlideRight(rs: seq<Rect>, lines: seq<int>, lo: int, hi: int,
                                      x: int, y: int, width: int, height: int) returns (best: int)
    requires forall r :: r in rs ==> Listed(r, lines, lo, hi)
    requires lo in lines && hi in lines && 0 < width
    requires lo <= x - 1 && x + width <= hi
    requires Total(rs, At(x, y, width, height)) <= Total(rs, At(x - 1, y, width, height))
    ensures lo <= best && best + width <= hi && Touches(lines, best, width)
    ensures Total(rs, At(best, y, width, height)) <= Total(rs, At(x, y, width, height))
    decreases hi - x
  {
    if Touches(lines, x, width) {
      best := x;
    } else {
      forall r | r in rs ensures !KinkX(r, x, width) {
        assert Listed(r, lines, lo, hi);
      }
      TotalAffine(rs, x, y, width, height);
      best := SlideRight(rs, lines, lo, hi, x + 1, y, width, height);
    }
  }

  /** Moving along x only, some position whose left or right edge lies on a line is no worse. */
  lemma {:induction false} BestOnLine(rs: seq<Rect>, lines: seq<int>, lo: int, hi: int,
                                      x: int, y: int, width: int, height: int) returns (best: int)
    requires forall r :: r in rs ==> Listed(r, lines, lo, hi)
    requires lo in lines && hi in lines && 0 < width
    requires lo <= x && x + width <= hi
    ensures lo <= best && best + width <= hi && Touches(lines, best, width)
    ensures Total(rs, At(best, y, width, height)) <= Total(rs, At(x, y, width, height))
  {
    if Touches(lines, x, width) {
      best := x;
    } else {
      forall r | r in rs ensures !KinkX(r, x, width) {
        assert Listed(r, lines, lo, hi);
      }
      TotalAffine(rs, x, y, width, height);
      if Total(rs, At(x - 1, y, width, height)) <= Total(rs, At(x, y, width, height)) {
        best := SlideLeft(rs, lines, lo, hi, x - 1, y, width, height);
      } else {
        best := SlideRight(rs, lines, lo, hi, x + 1, y, width, height);
      }
    }
  }

  function TransposeAll(rs: seq<Rect>): (ts: seq<Rect>)
    ensures |ts| == |rs| && forall i :: 0 <= i < |rs| ==> ts[i] == rs[i].Transpose()
  {
    seq(|rs|, i requires 0 <= i < |rs| => rs[i].Transpose())
  }

  lemma {:induction false} TotalTransposed(rs: seq<Rect>, w: Rect)
    ensures Total(TransposeAll(rs), w.Transpose()) == Total(rs, w)
  {
    if rs != [] {
      var n := |rs| - 1;
      TotalTransposed(rs[..n], w);
      assert TransposeAll(rs)[..n] == TransposeAll(rs[..n]);
      assert Area(rs[n].Transpose(), w.Transpose()) == Area(rs[n], w);
    }
  }

  /** The same along y. */
  lemma BestOnRow(rs: seq<Rect>, lines: seq<int>, lo: int, hi: int,
                  x: int, y: int, width: int, height: int) returns (best: int)
    requires forall r :: r in rs ==> Listed(r.Transpose(), lines, lo, hi)
    requires lo in lines && hi in lines && 0 < height
    requires lo <= y && y + height <= hi
    ensures lo <= best && best + height <= hi && Touches(lines, best, height)
    ensures Total(rs, At(x, best, width, height)) <= Total(rs, At(x, y, width, height))
  {
    best := BestOnLine(TransposeAll(rs), lines, lo, hi, y, x, height, width);
    assert At(x, best, width, height).Transpose() == At(best, x, height, width);
    assert At(x, y, width, height).Transpose() == At(y, x, height, width);
    TotalTransposed(rs, At(x, best, width, height));
    TotalTransposed(rs, At(x, y, width, height));
  }
}
