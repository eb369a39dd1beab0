/** snap_grow_to_next_edge (src/snap.c) with its cache of the last snapped edge. */
module Grow {
  import opened Options
  import opened Geometry
  import opened Edges
  import opened Snap
  import opened SnapConstraints

  /** Everything that the grow command reads besides the view's own geometry. */
  datatype Setting = Setting(id: nat, rs: seq<Region>, usable: Box, margin: Border, thickness: Border, gap: int)
  {
    predicate Exact() {
      PlainRegions(rs) && SmallBox(usable) && SmallBorder(margin) && SmallBorder(thickness) && Small(gap)
    }

    /** Where the moving edge would meet the edge of the output. */
    function Limit(dir: Side): int {
      match dir
      case Left => usable.x + thickness.left + gap
      case Right => usable.x + usable.width - gap - thickness.right
      case Top => usable.y + thickness.top + gap
      case Bottom => usable.y + usable.height - gap - thickness.bottom
    }
  }

  /** With its edge at p, the decorated window is a gap inside the edge of the output. */
  predicate Flush(cfg: Setting, dir: Side, p: int) {
    match dir
    case Left => p - cfg.thickness.left - cfg.gap == cfg.usable.x
    case Right => p + cfg.thickness.right + cfg.gap == cfg.usable.x + cfg.usable.width
    case Top => p - cfg.thickness.top - cfg.gap == cfg.usable.y
    case Bottom => p + cfg.thickness.bottom + cfg.gap == cfg.usable.y + cfg.usable.height
  }

  lemma LimitIsFlush(cfg: Setting, pending: Box, dir: Side, p: int)
    ensures Flush(cfg, dir, p) <==> p == cfg.Limit(dir)
    ensures Get(EdgesForTarget(cfg.thickness, cfg.gap, false, WithEdge(pending, dir, cfg.Limit(dir))), dir)
         == Get(BoxBorder(cfg.usable), dir)
  {
  }

  function MovingEdge(b: Box, dir: Side): int {
    match dir
    case Left => b.x
    case Right => b.Right()
    case Top => b.y
    case Bottom => b.Bottom()
  }

  /** The box with one edge moved to p and the other three where they were. */
  function WithEdge(b: Box, dir: Side, p: int): Box {
    match dir
    case Left => b.(x := p, width := b.x + b.width - p)
    case Right => b.(width := p - b.x)
    case Top => b.(y := p, height := b.y + b.height - p)
    case Bottom => b.(height := p - b.y)
  }

  /** The fold needs edges that fit an int. */
  predicate Foldable(cfg: Setting, origin: Box, geo: Box) {
    && IntRegions(cfg.rs) && IsInt(cfg.gap)
    && IntBorder(EdgesForTarget(cfg.margin, cfg.gap, false, origin))
    && IntBorder(EdgesForTarget(cfg.margin, cfg.gap, false, geo))
  }

  /** No grow operation shrinks the view, and nothing is searched when the size stays the same. */
  predicate Grows(pending: Box, geo: Box) {
    && !(geo.width < pending.width || geo.height < pending.height)
    && !(geo.width == pending.width && geo.height == pending.height)
  }

  function Snapped(cfg: Setting, pending: Box, hit: Hit, dir: Side): Box
    requires Foldable(cfg, Effective(hit, cfg.id, {dir}, pending, pending), WithEdge(pending, dir, cfg.Limit(dir)))
  {
    var geo, origin := WithEdge(pending, dir, cfg.Limit(dir)), Effective(hit, cfg.id, {dir}, pending, pending);
    var edges := FoldRegions(UNBOUNDED, EdgesForTarget(cfg.margin, cfg.gap, false, origin),
                             EdgesForTarget(cfg.margin, cfg.gap, false, geo), cfg.rs, cfg.gap, SnapCheck);
    AdjustResize(geo, edges, {dir}, pending, cfg.margin, cfg.gap)
  }

  /** The requested geometry and the new cache. */
  function Grown(cfg: Setting, pending: Box, hit: Hit, dir: Side): (Box, Hit)
    requires Foldable(cfg, Effective(hit, cfg.id, {dir}, pending, pending), WithEdge(pending, dir, cfg.Limit(dir)))
  {
    if Grows(pending, WithEdge(pending, dir, cfg.Limit(dir))) then
      var geo := Snapped(cfg, pending, hit, dir);
      (geo, Recorded(cfg.id, {dir}, geo))
    else (pending, hit)
  }

  /** The first half of the command: out to the edge of the output. */
  method GrowToOutput(pending: Box, usable: Box, thickness: Border, gap: int, dir: Side) returns (geo: Box)
    ensures geo == WithEdge(pending, dir, Setting(0, [], usable, Border(0, 0, 0, 0), thickness, gap).Limit(dir))
  {
    geo := pending;
    match dir {
      case Left =>
        geo := geo.(x := usable.x + thickness.left + gap);
        geo := geo.(width := pending.x + pending.width - geo.x);
      case Right =>
        geo := geo.(width := usable.x + usable.width - gap - thickness.right - pending.x);
      case Top =>
        geo := geo.(y := usable.y + thickness.top + gap);
        geo := geo.(height := pending.y + pending.height - geo.y);
      case Bottom =>
        geo := geo.(height := usable.y + usable.height - gap - thickness.bottom - pending.y);
    }
  }

  method GrowToNextEdge(view: View, snap: LastSnapHit, views: seq<View>, workspace: nat, thickness: Border, gap: int, dir: Side)
    returns (geo: Box)
    requires !view.shaded
    requires Foldable(Setting(view.id, SameOutput(views, view, workspace), view.output.area, view.margin, thickness, gap),
                      Effective(snap.hit, view.id, {dir}, view.pending, view.pending),
                      WithEdge(view.pending, dir,
                               Setting(view.id, SameOutput(views, view, workspace), view.output.area, view.margin, thickness, gap).Limit(dir)))
    modifies snap
    ensures (geo, snap.hit) ==
              if !view.output.usable then (view.pending, old(snap.hit))
              else Grown(Setting(view.id, SameOutput(views, view, workspace), view.output.area, view.margin, thickness, gap),
                         view.pending, old(snap.hit), dir)
  {
    geo := view.pending;
    if !view.output.usable {
      return;
    }
    geo := GrowToOutput(view.pending, view.output.area, thickness, gap, dir);
    assert geo == WithEdge(view.pending, dir,
                           Setting(view.id, SameOutput(views, view, workspace), view.output.area, view.margin, thickness, gap).Limit(dir));
    if geo.width < view.pending.width || geo.height < view.pending.height {
      geo := view.pending;
      return;
    }
    if geo.width == view.pending.width && geo.height == view.pending.height {
      geo := view.pending;
      return;
    }
    var origin := Effective(snap.hit, view.id, {dir}, view.pending, view.pending);
    var edges := FindNeighbors(UNBOUNDED, views, view, workspace, origin, geo, Some(view.output), gap, SnapCheck, false);
    geo := AdjustResize(geo, edges, {dir}, view.pending, view.margin, gap);
    snap.Set(view.id, {dir}, geo);
  }

  // ---- what a step finds ----

  function EdgeShift(margin: Border, gap: int, dir: Side): int {
    match dir
    case Left => -margin.left - gap
    case Right => margin.right + gap
    case Top => -margin.top - gap
    case Bottom => margin.bottom + gap
  }

  /** A neighbour offers the edge p of the view something to snap to. */
  predicate GrowStop(cfg: Setting, dir: Side, p: int)
    requires IntRegions(cfg.rs) && IsInt(cfg.gap)
  {
    p + EdgeShift(cfg.margin, cfg.gap, dir) in Offers(cfg.rs, dir, cfg.gap)
  }

  /** q is the next place for the moving edge after `from`: the nearest stop strictly ahead, or the limit. */
  ghost predicate NextStop(cfg: Setting, dir: Side, from: int, q: int)
    requires IntRegions(cfg.rs) && IsInt(cfg.gap)
  {
    if from == cfg.Limit(dir) then q == from
    else
      && Ahead(q, from, cfg.Limit(dir))
      && (q == cfg.Limit(dir) || GrowStop(cfg, dir, q))
      && forall p :: GrowStop(cfg, dir, p) && Ahead(p, from, cfg.Limit(dir)) ==> Abs(q - from) <= Abs(p - from)
  }

  /** Three of the edges of the request are those of the view; the fourth is the next stop after the origin's. */
  lemma SnappedIsNextStop(cfg: Setting, pending: Box, hit: Hit, dir: Side)
    requires cfg.Exact()
    requires Foldable(cfg, Effective(hit, cfg.id, {dir}, pending, pending), WithEdge(pending, dir, cfg.Limit(dir)))
    requires Abs(MovingEdge(Effective(hit, cfg.id, {dir}, pending, pending), dir)) < 0x4000_0000
    ensures var q := MovingEdge(Snapped(cfg, pending, hit, dir), dir);
            && Snapped(cfg, pending, hit, dir) == WithEdge(pending, dir, q)
            && NextStop(cfg, dir, MovingEdge(Effective(hit, cfg.id, {dir}, pending, pending), dir), q)
  {
    var origin, geo := Effective(hit, cfg.id, {dir}, pending, pending), WithEdge(pending, dir, cfg.Limit(dir));
    var from, to := EdgesForTarget(cfg.margin, cfg.gap, false, origin), EdgesForTarget(cfg.margin, cfg.gap, false, geo);
    EdgePosition(cfg, origin, dir);
    EdgePosition(cfg, geo, dir);
    EdgeOfFold(cfg, from, to, dir, MovingEdge(origin, dir));
    var edges := FoldRegions(UNBOUNDED, from, to, cfg.rs, cfg.gap, SnapCheck);
    AdjustsOneEdge(cfg, geo, edges, pending, dir);
    MovedEdge(pending, dir, Reset(cfg, dir, Get(edges, dir)));
  }

  /** The position of the moving edge that a result of the fold stands for. */
  function Reset(cfg: Setting, dir: Side, r: int): int {
    if Bounded(r) then r - EdgeShift(cfg.margin, cfg.gap, dir) else cfg.Limit(dir)
  }

  lemma MovedEdge(b: Box, dir: Side, p: int)
    ensures MovingEdge(WithEdge(b, dir, p), dir) == p
  {
  }

  lemma EdgeOfFold(cfg: Setting, from: Border, to: Border, dir: Side, start: int)
    requires cfg.Exact() && IntRegions(cfg.rs) && IntBorder(from) && IntBorder(to)
    requires Offset(from, dir) == start + EdgeShift(cfg.margin, cfg.gap, dir)
    requires Offset(to, dir) == cfg.Limit(dir) + EdgeShift(cfg.margin, cfg.gap, dir)
    requires Bounded(Offset(from, dir)) && Bounded(Offset(to, dir))
    ensures NextStop(cfg, dir, start, Reset(cfg, dir, Get(FoldRegions(UNBOUNDED, from, to, cfg.rs, cfg.gap, SnapCheck), dir)))
  {
    NearestEdge(UNBOUNDED, from, to, cfg.rs, cfg.gap, dir);
    StopOf(cfg, dir, Get(FoldRegions(UNBOUNDED, from, to, cfg.rs, cfg.gap, SnapCheck), dir), start, if IsLesser(dir) then INT_MIN else INT_MAX);
  }

  lemma EdgePosition(cfg: Setting, b: Box, dir: Side)
    requires cfg.Exact() && IntBorder(EdgesForTarget(cfg.margin, cfg.gap, false, b))
    requires Abs(MovingEdge(b, dir)) < 0x5000_0000
    ensures Offset(EdgesForTarget(cfg.margin, cfg.gap, false, b), dir) == MovingEdge(b, dir) + EdgeShift(cfg.margin, cfg.gap, dir)
    ensures Bounded(MovingEdge(b, dir) + EdgeShift(cfg.margin, cfg.gap, dir))
  {
  }

  lemma AdjustsOneEdge(cfg: Setting, geo: Box, edges: Border, pending: Box, dir: Side)
    requires geo == WithEdge(pending, dir, cfg.Limit(dir))
    ensures AdjustResize(geo, edges, {dir}, pending, cfg.margin, cfg.gap)
         == WithEdge(pending, dir, Reset(cfg, dir, Get(edges, dir)))
  {
  }

  /** From the first edge met, in effective coordinates, to the next stop of the moving edge. */
  lemma StopOf(cfg: Setting, dir: Side, r: int, from: int, init: int)
    requires cfg.Exact() && IntRegions(cfg.rs) && !Bounded(init)
    requires FirstMet(r, init, Offers(cfg.rs, dir, cfg.gap),
                      from + EdgeShift(cfg.margin, cfg.gap, dir), cfg.Limit(dir) + EdgeShift(cfg.margin, cfg.gap, dir))
    ensures NextStop(cfg, dir, from, Reset(cfg, dir, r))
  {
    var shift, limit := EdgeShift(cfg.margin, cfg.gap, dir), cfg.Limit(dir);
    var q := Reset(cfg, dir, r);
    assert Bounded(r) ==> q + shift == r;
    forall p | GrowStop(cfg, dir, p) && Ahead(p, from, limit) ensures from != limit && Abs(q - from) <= Abs(p - from) {
      assert Ahead(p + shift, from + shift, limit + shift);
    }
  }
}
