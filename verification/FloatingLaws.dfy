/** Where maximized, fullscreen and tiled windows are (src/view.c). */
module FloatingLaws {

  import opened Options
  import opened Geometry
  import opened FloatingGeometry

  /** The window with its decorations. */
  function Decorated(b: Box, border: Border): Box {
    Box(b.x - border.left, b.y - border.top, b.width + border.left + border.right, b.height + border.top + border.bottom)
  }

  /** The borders that a maximized window shows. */
  function Shown(env: Env): Border {
    if env.decorated then env.thickness else Border(0, 0, 0, 0)
  }

  /** Along the axis both edges of b are those of the area. */
  predicate Spans(b: Box, area: Box, axis: Axis) {
    && (axis.HasHorizontal() ==> b.x == area.x && b.Right() == area.Right())
    && (axis.HasVertical() ==> b.y == area.y && b.Bottom() == area.Bottom())
  }

  /** The half of the geometry along the axes that are not maximized. */
  predicate SameFreeHalf(b: Box, c: Box, axis: Axis) {
    && (!axis.HasHorizontal() ==> b.x == c.x && b.width == c.width)
    && (!axis.HasVertical() ==> b.y == c.y && b.height == c.height)
  }

  /** A maximized window's decorations end exactly at the edges of the usable area along its axes. */
  lemma MaximizedSpans(env: Env, v: View, axis: Axis)
    requires axis != NoAxis && !v.fullscreen && v.maximized != axis
    ensures var t := Maximized(env, v, axis);
            t.maximized == axis && Spans(Decorated(t.pending, Shown(env)), env.usable, axis)
  {
  }

  /** Along the free axis a visible window keeps its place and size; another one keeps its size and is centred. */
  lemma MaximizedFreeHalf(env: Env, v: View, axis: Axis)
    requires axis != NoAxis && v.IsFloating() && !v.pending.Empty()
    ensures var t := Maximized(env, v, axis);
            && (env.usable.Intersects(v.pending) ==> SameFreeHalf(t.pending, v.pending, axis))
            && (!env.usable.Intersects(v.pending) ==>
                  && (axis == Vertical ==> t.pending.width == v.pending.width && CentredIn(env, t.pending, true))
                  && (axis == Horizontal ==> t.pending.height == v.pending.height && CentredIn(env, t.pending, false)))
  {
  }

  /** The decorated window is centred in the usable area. */
  predicate CentredIn(env: Env, b: Box, horizontal: bool) {
    var d := Decorated(b, env.margin);
    if horizontal then CentredOn(d.x, d.width, env.usable.x, env.usable.width)
    else CentredOn(d.y, d.height, env.usable.y, env.usable.height)
  }

  /** Maximizing stores the geometry that it covers, unless another state has stored it already. */
  lemma MaximizedStores(env: Env, v: View, axis: Axis)
    requires !v.fullscreen && v.maximized != axis && !v.pending.Empty()
    ensures var t := Maximized(env, v, axis);
            && (v.IsFloating() ==> t.natural == v.pending)
            && (v.IsTiled() && (axis == Both || axis == NoAxis || !v.natural.Empty()) ==> t.natural == v.natural)
            && t.tiled == v.tiled && t.region == v.region && !t.fullscreen
  {
  }

  /** An unknown geometry is made up before a single axis is maximized. */
  lemma MaximizedFallsBack(env: Env, v: View, axis: Axis)
    requires (axis == Horizontal || axis == Vertical) && v.IsFloating() && v.pending.Empty()
    ensures Maximized(env, v, axis).natural == env.fallback
  {
  }

  /** A fullscreen window covers its whole output; leaving fullscreen shows what is below. */
  lemma FullscreenCovers(env: Env, v: View)
    requires !v.fullscreen
    ensures var t := Fullscreened(env, v, true);
            t.fullscreen && t.pending == env.outputBox && t.maximized == v.maximized && t.tiled == v.tiled && t.region == v.region
  {
  }

  lemma LeavingFullscreen(env: Env, v: View)
    requires v.fullscreen
    ensures var t := Fullscreened(env, v, false);
            && !t.fullscreen && t.natural == v.natural && t.maximized == v.maximized
            && (v.maximized != NoAxis ==> Spans(Decorated(t.pending, Shown(env)), env.usable, v.maximized))
            && (v.maximized == NoAxis && v.tiled != {} ==> t.pending == env.edgeBox(v.tiled))
            && (v.maximized == NoAxis && v.tiled == {} && v.region.Some? ==> t.pending == env.regionBox(v.region.value))
  {
  }

  /** A maximized window does not move when it becomes maximized the same way again, nor a fullscreen one at all. */
  lemma NothingToMaximize(env: Env, v: View, axis: Axis)
    requires v.maximized == axis || v.fullscreen
    ensures Maximized(env, v, axis) == v
  {
  }

  /** A floating window that meets its output is moved right and down, no further than its title bar needs; another one is placed anew. */
  lemma AdjustedTitle(env: Env, b: Box)
    requires !env.pinned
    ensures var t, d := Adjusted(env, b), Decorated(Adjusted(env, b), env.margin);
            if env.outputBox.Intersects(b) then
              && t.width == b.width && t.height == b.height
              && d.x >= env.usable.x && t.x >= b.x && (t.x == b.x || d.x == env.usable.x)
              && d.y >= env.usable.y && t.y >= b.y && (t.y == b.y || d.y == env.usable.y)
            else t == env.place(b)
  {
  }

  // ---- tiling ----

  /** Tiling to an edge or a corner ends every other state, and remembers the floating geometry. */
  lemma TiledIs(p: Placed, edge: set<Tile>, combine: bool, next: Option<Env>)
    requires !p.v.fullscreen && edge != {}
    ensures var t := SnappedToEdge(p, edge, false, combine, next);
            && t.env == p.env && t.v.maximized == NoAxis && t.v.region == None && t.v.pending == p.env.edgeBox(t.v.tiled)
            && (!combine || p.v.maximized != NoAxis || p.v.tiled == {} ==> t.v.tiled == edge)
            && (p.v.IsFloating() ==> t.v.natural == p.v.pending)
            && (p.v.IsTiled() && p.v.maximized == NoAxis ==> t.v.natural == p.v.natural)
  {
  }

  /** The two axes of tiling. */
  predicate Orthogonal(e: Tile, o: Tile) {
    (e in {Top, Bottom} && o in {Left, Right}) || (e in {Left, Right} && o in {Top, Bottom})
  }

  function Opposite(e: Tile): Tile {
    match e
    case Top => Bottom
    case Bottom => Top
    case Left => Right
    case Right => Left
    case Center => Center
  }

  lemma EdgeSets(e: Tile, o: Tile)
    requires Orthogonal(e, o)
    ensures Cardinal({e}) && Invert({e}) == {Opposite(e)} && {o} != {Center}
    ensures {o} * ({e} + {Opposite(e)}) == {}
    ensures {Opposite(e), o} * ({e} + {Opposite(e)}) == {Opposite(e)} && {Opposite(e), o} - ({e} + {Opposite(e)}) == {o}
    ensures {e, o} * ({e} + {Opposite(e)}) == {e}
  {
  }

  /** A half becomes a corner, and a corner the half that is left of it. */
  lemma CombinedTiles(v: View, e: Tile, o: Tile)
    requires Orthogonal(e, o) && v.maximized == NoAxis
    ensures v.tiled == {o} ==> CombinedEdge(v, {e}, true) == {o, e}
    ensures v.tiled == {Opposite(e), o} ==> CombinedEdge(v, {e}, true) == {o}
  {
    EdgeSets(e, o);
    assert Opposite(e) in {Opposite(e), o} && Opposite(e) !in {Center};
    assert {o} + {e} == {o, e};
  }

  /** Every other tiling that edges can produce is simply replaced. */
  lemma ReplacedTiles(v: View, e: Tile, o: Tile)
    requires Orthogonal(e, o) && v.maximized == NoAxis
    ensures v.tiled in {{e}, {Opposite(e)}, {e, o}, {Center}, {}} ==> CombinedEdge(v, {e}, true) == {e}
  {
    EdgeSets(e, o);
    if v.tiled == {e} || v.tiled == {e, o} {
      assert e in v.tiled * ({e} + {Opposite(e)}) && e !in {Opposite(e)};
    } else if v.tiled == {Opposite(e)} {
      assert v.tiled - ({e} + {Opposite(e)}) == {};
      assert Opposite(e) in v.tiled * ({e} + {Opposite(e)});
    } else if v.tiled == {} {
      assert {} + {e} == {e};
    }
  }

  /** Tiling to a corner or to the centre is never combined and never leaves the output. */
  lemma CornersAreTaken(p: Placed, edge: set<Tile>, across: bool, combine: bool, next: Option<Env>)
    requires edge == {Center} || exists e, o :: Orthogonal(e, o) && edge == {e, o}
    requires !p.v.fullscreen
    ensures var t := SnappedToEdge(p, edge, across, combine, next); t.env == p.env && t.v.tiled == edge
  {
    if edge != {Center} {
      var e, o :| Orthogonal(e, o) && edge == {e, o};
      assert e in edge && o in edge;
    } else {
      assert Center in edge;
    }
    assert !Cardinal(edge) by {
      assert Top !in {Bottom} && Top !in {Left} && Top !in {Right};
    }
  }

  /** Tiling a half-tiled window to a corner and back gives the half again. */
  lemma CornerAndBack(p: Placed, e: Tile, o: Tile, next: Option<Env>)
    requires Orthogonal(e, o) && !p.v.fullscreen && p.v.maximized == NoAxis && p.v.tiled == {o}
    ensures var t := SnappedToEdge(p, {e}, false, true, next);
            t.v.tiled == {o, e} && SnappedToEdge(t, {Opposite(e)}, false, true, next).v.tiled == {o}
  {
    CombinedTiles(p.v, e, o);
    var t := SnappedToEdge(p, {e}, false, true, next);
    assert Opposite(Opposite(e)) == e;
    CombinedTiles(t.v, Opposite(e), o);
  }

  /** Tiling again to the same edge sends the window to the next output, to the edge it comes from; without one it stays. */
  lemma TiledAcross(p: Placed, e: Tile, combine: bool, next: Option<Env>)
    requires e != Center && !p.v.fullscreen && p.v.maximized == NoAxis && p.v.tiled == {e}
    ensures var t := SnappedToEdge(p, {e}, true, combine, next);
            if next.None? then t == p
            else t.env == next.value && t.v.tiled == {Opposite(e)} && t.v.pending == next.value.edgeBox({Opposite(e)})
                 && t.v.natural == p.v.natural
  {
  }

  /** The same for a region. */
  lemma RegionIs(env: Env, v: View, region: nat)
    requires !v.fullscreen
    ensures var t := SnappedToRegion(env, v, region);
            && t.region == Some(region) && t.tiled == {} && t.maximized == NoAxis && t.pending == env.regionBox(region)
            && (v.IsFloating() ==> t.natural == v.pending)
  {
  }

  /** Unsnapping lets the window float. */
  lemma UnsnappedFloats(env: Env, v: View)
    requires !v.fullscreen
    ensures Unsnapped(env, v).IsFloating()
    ensures v.IsTiled() && v.maximized == NoAxis && !v.natural.Empty() && ComesBack(env, v.natural) ==> Unsnapped(env, v).pending == v.natural
  {
  }

  // ---- view_get_edge_snap_box ----

  /** The box of a tiled window on an output with the given usable area, `gap` inside and between the tiles. */
  function EdgeBox(usable: Box, margin: Border, gap: int, edge: set<Tile>): Box {
    var x1 := if Right in edge then Half(usable.width + gap) else gap;
    var x2 := if Left in edge then Half(usable.width - gap) else usable.width - gap;
    var y1 := if Bottom in edge then Half(usable.height + gap) else gap;
    var y2 := if Top in edge then Half(usable.height - gap) else usable.height - gap;
    Box(x1 + usable.x + margin.left, y1 + usable.y + margin.top,
        x2 - x1 - (margin.left + margin.right), y2 - y1 - (margin.top + margin.bottom))
  }

  /** The decorated tile. */
  function TileOf(usable: Box, margin: Border, gap: int, edge: set<Tile>): Box {
    Decorated(EdgeBox(usable, margin, gap, edge), margin)
  }

  predicate Divisible(usable: Box, gap: int) {
    0 <= gap <= usable.width && gap <= usable.height
  }

  /** Opposite halves lie a gap inside the usable area, a gap apart, and are as wide as each other to a pixel. */
  lemma HalvesMeet(usable: Box, margin: Border, gap: int)
    requires Divisible(usable, gap)
    ensures var l, r := TileOf(usable, margin, gap, {Left}), TileOf(usable, margin, gap, {Right});
            && l.x - gap == usable.x && l.Right() + gap == r.x && r.Right() + gap == usable.Right() && Abs(l.width - r.width) <= 1
            && l.y - gap == r.y - gap == usable.y && l.Bottom() + gap == r.Bottom() + gap == usable.Bottom()
    ensures var t, b := TileOf(usable, margin, gap, {Top}), TileOf(usable, margin, gap, {Bottom});
            && t.y - gap == usable.y && t.Bottom() + gap == b.y && b.Bottom() + gap == usable.Bottom() && Abs(t.height - b.height) <= 1
            && t.x - gap == b.x - gap == usable.x && t.Right() + gap == b.Right() + gap == usable.Right()
  {
  }

  /** A corner is where its two halves overlap; the centre fills the area. */
  lemma CornerIsOverlap(usable: Box, margin: Border, gap: int, e: Tile, o: Tile, x: int, y: int)
    requires Orthogonal(e, o) && Divisible(usable, gap)
    ensures TileOf(usable, margin, gap, {e, o}).ContainsPoint(x, y) <==>
              TileOf(usable, margin, gap, {e}).ContainsPoint(x, y) && TileOf(usable, margin, gap, {o}).ContainsPoint(x, y)
    ensures TileOf(usable, margin, gap, {Center}) == Decorated(usable, Border(-gap, -gap, -gap, -gap))
  {
  }
}
