/** What placement promises, window by window and pixel by pixel (src/placement.c). */
module PlacementLaws {

  import opened Geometry
  import opened Overlap
  import opened Grid
  import opened PlacementGrid
  import opened PlacementScore
  import opened PlacementBest

  /** Another window that can be seen where the view is to be placed. */
  predicate Shows(d: Desk, v: View) {
    v.id != d.self && v.focusable && v.output == d.output.id && v.workspace == d.workspace
  }

  /** The pixel belongs to the window or its decorations; a shaded window is all decoration. */
  predicate OnWindow(v: View, px: int, py: int) {
    && v.pending.x <= px + v.margin.left && px - v.margin.right < v.pending.Right()
    && v.pending.y <= py + v.margin.top && py - v.margin.bottom < (if v.shaded then v.pending.y else v.pending.Bottom())
  }

  /** How many of the first n windows are at a pixel. */
  function WindowsAt(d: Desk, n: nat, px: int, py: int): nat
    requires n <= |d.views|
  {
    if n == 0 then 0
    else WindowsAt(d, n - 1, px, py) + if Shows(d, d.views[n - 1]) && OnWindow(d.views[n - 1], px, py) then 1 else 0
  }

  /** The obstacles cover a pixel as often as decorated windows do. */
  lemma {:induction false} CountIsWindows(d: Desk, n: nat, px: int, py: int)
    requires n <= |d.views|
    ensures CountAt(d.Obstacles(n), px, py) == WindowsAt(d, n, px, py)
  {
    if n > 0 {
      CountIsWindows(d, n - 1, px, py);
      if Shows(d, d.views[n - 1]) {
        assert (d.Obstacles(n - 1) + [d.views[n - 1].Extent()])[..|d.Obstacles(n - 1)|] == d.Obstacles(n - 1);
      }
    }
  }

  /** None of the first n windows is at a pixel. */
  predicate NoWindowAt(d: Desk, n: nat, px: int, py: int)
    requires n <= |d.views|
  {
    forall k :: 0 <= k < n && Shows(d, d.views[k]) ==> !OnWindow(d.views[k], px, py)
  }

  lemma {:induction false} NoWindowIff(d: Desk, n: nat, px: int, py: int)
    requires n <= |d.views|
    ensures WindowsAt(d, n, px, py) == 0 <==> NoWindowAt(d, n, px, py)
  {
    if n > 0 {
      NoWindowIff(d, n - 1, px, py);
    }
  }

  /** The view, with its decorations and the gap around them, touches no window if it is placed as `geometry`. */
  ghost predicate Clear(d: Desk, margin: Border, gap: int, geometry: Box) {
    forall px, py ::
      && geometry.x - margin.left - gap <= px < geometry.Right() + margin.right + gap
      && geometry.y - margin.top - gap <= py < geometry.Bottom() + margin.bottom + gap
      ==> NoWindowAt(d, |d.views|, px, py)
  }

  function Inflated(margin: Border, gap: int, geometry: Box): Rect {
    Rect(geometry.x - margin.left - gap, geometry.y - margin.top - gap,
         geometry.Right() + margin.right + gap, geometry.Bottom() + margin.bottom + gap)
  }

  lemma ClearIffFree(d: Desk, margin: Border, gap: int, geometry: Box)
    ensures Clear(d, margin, gap, geometry) <==> FreeOf(d.Others(), Inflated(margin, gap, geometry))
  {
    forall px, py ensures CountAt(d.Others(), px, py) == 0 <==> NoWindowAt(d, |d.views|, px, py) {
      CountIsWindows(d, |d.views|, px, py);
      NoWindowIff(d, |d.views|, px, py);
    }
  }

  /** The decorated view and its gap lie in the usable area. */
  predicate Fits(d: Desk, margin: Border, gap: int, geometry: Box) {
    && d.output.area.x <= geometry.x - margin.left - gap && geometry.Right() + margin.right + gap <= d.output.area.Right()
    && d.output.area.y <= geometry.y - margin.top - gap && geometry.Bottom() + margin.bottom + gap <= d.output.area.Bottom()
  }

  /** The guarantee of the search. */
  ghost predicate PlacedBest(d: Desk, margin: Border, gap: int, placed: Box) {
    Fits(d, margin, gap, placed) &&
    forall other: Box :: other.width == placed.width && other.height == placed.height && Fits(d, margin, gap, other) ==>
      Total(d.Others(), Inflated(margin, gap, placed)) <= Total(d.Others(), Inflated(margin, gap, other))
  }

  /** If there is any place in the usable area where the view would touch no window, it touches none where it is placed. */
  lemma FreePlaceIsUsed(d: Desk, margin: Border, gap: int, placed: Box, other: Box)
    requires PlacedBest(d, margin, gap, placed)
    requires other.width == placed.width && other.height == placed.height && Fits(d, margin, gap, other)
    requires Clear(d, margin, gap, other)
    ensures Clear(d, margin, gap, placed)
  {
    ClearIffFree(d, margin, gap, other);
    ClearIffFree(d, margin, gap, placed);
    FreeIffZero(d.Others(), Inflated(margin, gap, other));
    FreeIffZero(d.Others(), Inflated(margin, gap, placed));
  }

  /** What the search finds is the best of all places in the usable area. */
  lemma BestOfAll(d: Desk, margin: Border, gap: int, placed: Box)
    requires var w, h := placed.width + margin.left + margin.right + 2 * gap, placed.height + margin.top + margin.bottom + 2 * gap;
             var x, y := placed.x - margin.left - gap, placed.y - margin.top - gap;
             Inside(d.output.area, x, y, w, h) && Optimal(d.Others(), d.output.area, w, h, Total(d.Others(), At(x, y, w, h)))
    ensures PlacedBest(d, margin, gap, placed)
  {
    var w, h := placed.width + margin.left + margin.right + 2 * gap, placed.height + margin.top + margin.bottom + 2 * gap;
    assert Inflated(margin, gap, placed) == At(placed.x - margin.left - gap, placed.y - margin.top - gap, w, h);
    forall other: Box | other.width == placed.width && other.height == placed.height && Fits(d, margin, gap, other)
      ensures Total(d.Others(), Inflated(margin, gap, placed)) <= Total(d.Others(), Inflated(margin, gap, other))
    {
      assert Inflated(margin, gap, other) == At(other.x - margin.left - gap, other.y - margin.top - gap, w, h);
      assert Inside(d.output.area, other.x - margin.left - gap, other.y - margin.top - gap, w, h);
    }
  }
}
