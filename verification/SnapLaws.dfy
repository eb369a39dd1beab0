/** The cache of the last snapped edge, growing and the search around it, by what they mean for the window (src/snap-constraints.c, src/snap.c). */
module SnapLaws {

  import opened Options
  import opened Geometry
  import opened Edges
  import opened SnapConstraints
  import opened Snap
  import opened Grow
  import Shrink

  // ---- the cache ----

  /** One side, or two that meet in a corner. */
  predicate Proper(sides: set<Side>) {
    sides != {} && !(Left in sides && Right in sides) && !(Top in sides && Bottom in sides)
  }

  /** The recorded edges are coordinates. */
  predicate Recordable(sides: set<Side>, geom: Box) {
    && (Left in sides ==> Bounded(geom.x)) && (Right in sides ==> Bounded(geom.Right()))
    && (Top in sides ==> Bounded(geom.y)) && (Bottom in sides ==> Bounded(geom.Bottom()))
  }

  lemma HasAxis(sides: set<Side>)
    requires Proper(sides)
    ensures sides * {Left, Right} != {} <==> Left in sides || Right in sides
    ensures sides * {Top, Bottom} != {} <==> Top in sides || Bottom in sides
    ensures sides * {Left, Right} != {} || sides * {Top, Bottom} != {}
  {
    assert forall s :: s in sides * {Left, Right} <==> s in sides && (s == Left || s == Right);
    assert forall s :: s in sides * {Top, Bottom} <==> s in sides && (s == Top || s == Bottom);
    if Left in sides { assert Left in sides * {Left, Right}; }
    if Right in sides { assert Right in sides * {Left, Right}; }
    if Top in sides { assert Top in sides * {Top, Bottom}; }
    if Bottom in sides { assert Bottom in sides * {Top, Bottom}; }
    var s :| s in sides;
    match s
    case Left => case Right => case Top => case Bottom =>
  }

  /** A hit is of no use for a resize by opposite sides or by none, nor without a proper coordinate. */
  lemma ValidNeeds(hit: Hit, view: nat, sides: set<Side>, pending: Box)
    requires Valid(hit, view, sides, pending)
    ensures sides != {} && !(Left in sides && Right in sides)
    ensures Left !in sides && Right !in sides ==> !(Top in sides && Bottom in sides)
    ensures Bounded(if Left in sides || Right in sides then hit.horizontal else hit.vertical)
  {
    assert forall s :: s in sides * {Left, Right} <==> s in sides && (s == Left || s == Right);
    assert Left in sides && Right in sides <==> {Left, Right} <= sides;
    assert Top in sides && Bottom in sides <==> {Top, Bottom} <= sides;
    assert sides * {Left, Right} == {} <==> Left !in sides && Right !in sides;
  }

  /** What was recorded for a resize is valid for the same view, sides and geometry, and for no others. */
  lemma RecordedValidIff(view: nat, sides: set<Side>, geom: Box, other: nat, others: set<Side>, pending: Box)
    requires Proper(sides) && Recordable(sides, geom)
    ensures Valid(Recorded(view, sides, geom), other, others, pending) <==> other == view && others == sides && pending == geom
  {
    HasAxis(sides);
  }

  /**
   The answer to the recorded request carries the cache over to the geometry that came of it; an answer to another
   request, or of another view, does not.
   */
  lemma AnswerValidIff(view: nat, sides: set<Side>, geom: Box, other: nat, pending: Box, current: Box)
    requires Proper(sides) && Recordable(sides, geom)
    ensures Valid(Updated(Recorded(view, sides, geom), other, pending, current), view, sides, current) <==>
              (other == view && pending.width == geom.width && pending.height == geom.height) || current == geom
  {
    HasAxis(sides);
  }

  /** Only the first answer counts. */
  lemma AnsweredOnce(hit: Hit, view: nat, p: Box, c: Box, q: Box, d: Box)
    requires Updated(hit, view, p, c) != hit || !hit.pending
    ensures Updated(Updated(hit, view, p, c), view, q, d) == Updated(hit, view, p, c)
  {
  }

  /** The box to search from has each recorded edge on the sides that are moved; the near sides shift the box, the far ones stretch it. */
  lemma EffectiveIs(hit: Hit, view: nat, sides: set<Side>, pending: Box, base: Box)
    requires Proper(sides)
    ensures var e := Effective(hit, view, sides, pending, base);
            && (!Valid(hit, view, sides, pending) ==> e == base)
            && (Left in sides ==> e == base || (e.x == hit.horizontal && e.width == base.width))
            && (Right in sides ==> e == base || (e.x == base.x && e.Right() == hit.horizontal))
            && (Top in sides ==> e == base || (e.y == hit.vertical && e.height == base.height))
            && (Bottom in sides ==> e == base || (e.y == base.y && e.Bottom() == hit.vertical))
            && (Left !in sides && Right !in sides ==> e.x == base.x && e.width == base.width)
            && (Top !in sides && Bottom !in sides ==> e.y == base.y && e.height == base.height)
  {
  }

  /** It is used unless it is not valid or leaves the window without a size. */
  lemma EffectiveUsed(hit: Hit, view: nat, s: Side, pending: Box, base: Box)
    requires Valid(hit, view, {s}, pending) && !base.Empty() && Bounded(base.x) && Bounded(base.y)
    requires s == Right ==> hit.horizontal > base.x
    requires s == Bottom ==> Bounded(hit.vertical) && hit.vertical > base.y
    requires s == Top ==> Bounded(hit.vertical)
    ensures MovingEdge(Effective(hit, view, {s}, pending, base), s) == if Horizontal(s) then hit.horizontal else hit.vertical
  {
    HasAxis({s});
  }

  // ---- growing ----

  /** The edge of the output lies outside the window on the side that grows. */
  predicate LimitOutside(cfg: Setting, pending: Box, dir: Side) {
    if IsLesser(dir) then cfg.Limit(dir) < MovingEdge(pending, dir) else MovingEdge(pending, dir) < cfg.Limit(dir)
  }

  /** The command asks for something exactly if the edge of the output is outside the window; otherwise nothing changes. */
  lemma GrownIff(cfg: Setting, pending: Box, hit: Hit, dir: Side)
    requires Foldable(cfg, Effective(hit, cfg.id, {dir}, pending, pending), WithEdge(pending, dir, cfg.Limit(dir)))
    ensures if LimitOutside(cfg, pending, dir) then
              var geo := Snapped(cfg, pending, hit, dir);
              Grown(cfg, pending, hit, dir) == (geo, Recorded(cfg.id, {dir}, geo))
            else Grown(cfg, pending, hit, dir) == (pending, hit)
  {
  }

  /** The decorated side of a box at p, a gap before or after a window, or flush with the window's side of the same kind. */
  predicate SideTouches(p: int, margin: Border, v: View, gap: int, dir: Side) {
    match dir
    case Left => p - margin.left == v.current.Right() + v.margin.right + gap || p - margin.left == v.current.x - v.margin.left
    case Right => p + margin.right == v.current.x - v.margin.left - gap || p + margin.right == v.current.Right() + v.margin.right
    case Top => p - margin.top == LowEnd(v) + gap || p - margin.top == v.current.y - v.margin.top
    case Bottom => p + margin.bottom == v.current.y - v.margin.top - gap || p + margin.bottom == LowEnd(v)
  }

  /** Where the decorated window ends below. */
  function LowEnd(v: View): int {
    v.current.y + (if v.shaded then 0 else v.current.height) + v.margin.bottom
  }

  /** A growing side stops exactly where it touches a window in the way. */
  lemma {:induction false} GrowStopIff(cfg: Setting, views: seq<View>, n: nat, view: View, workspace: nat, dir: Side, p: int)
    requires n <= |views| && SmallWindows(views) && Small(cfg.gap) && SmallBorder(cfg.margin) && Abs(p) < 0x2000_0000
    requires cfg.rs == Neighbors(views, n, view, workspace, Some(view.output), false)
    ensures IntRegions(cfg.rs)
    ensures GrowStop(cfg, dir, p) <==>
              exists k :: 0 <= k < n && InTheWay(views[k], view, workspace, Some(view.output), false)
                          && SideTouches(p, cfg.margin, views[k], cfg.gap, dir)
    decreases n
  {
    NeighborsArePlain(views, n, view, workspace, Some(view.output));
    PlainIsInt(cfg.rs);
    if n > 0 {
      var rest := Neighbors(views, n - 1, view, workspace, Some(view.output), false);
      GrowStopIff(cfg.(rs := rest), views, n - 1, view, workspace, dir, p);
      NeighborIff(views[n - 1], view, workspace, Some(view.output), false);
      assert views[n - 1] in views;
      if IsNeighbor(views[n - 1], view, workspace, Some(view.output), false) {
        OneMoreStop(cfg, rest, views[n - 1], dir, p);
      }
    }
  }

  lemma OneMoreStop(cfg: Setting, rest: seq<Region>, v: View, dir: Side, p: int)
    requires cfg.rs == rest + [Region(v.WinEdges(), ALL_SIDES)] && PlainRegions(rest) && SmallBorder(v.WinEdges())
    requires Small(cfg.gap) && SmallBorder(cfg.margin) && Abs(p) < 0x2000_0000
    ensures IntRegions(rest) && IntRegions(cfg.rs)
    ensures GrowStop(cfg, dir, p) <==> GrowStop(cfg.(rs := rest), dir, p) || SideTouches(p, cfg.margin, v, cfg.gap, dir)
  {
    PlainIsInt(rest);
    assert cfg.rs[..|cfg.rs| - 1] == rest;
    LastStop(Region(v.WinEdges(), ALL_SIDES), v, cfg.margin, cfg.gap, dir, p);
  }

  lemma LastStop(r: Region, v: View, margin: Border, gap: int, dir: Side, p: int)
    requires r == Region(v.WinEdges(), ALL_SIDES) && SmallBorder(v.WinEdges()) && Small(gap)
    ensures IntBorder(r.edges)
    ensures p + EdgeShift(margin, gap, dir) in {Opposing(r, dir), Aligned(r, dir, gap)} <==> SideTouches(p, margin, v, gap, dir)
  {
    assert Invert(dir) in ALL_SIDES && dir in ALL_SIDES by {
      match dir
      case Left => case Right => case Top => case Bottom =>
    }
  }

  // ---- shrinking ----

  /** An area offers its edge on the same side; what else is offered is no coordinate. */
  lemma {:induction false} AreaOfferIff(bs: seq<Box>, s: Side, o: int)
    requires IntBoxes(bs) && Bounded(o)
    ensures o in Shrink.AreaOffers(bs, s) <==> exists b <- bs :: o == Get(BoxBorder(b), s)
  {
    if bs != [] {
      AreaOfferIff(bs[..|bs| - 1], s, o);
      assert forall b :: b in bs <==> b == bs[|bs| - 1] || b in bs[..|bs| - 1];
    }
  }

  /** The side moves to half the size or the least one, the opposite side and the other axis stay. */
  lemma HalvedIs(b: Box, s: Side)
    ensures var h, most := Shrink.Halved(b, s), if Horizontal(s) then b.width else b.height;
            && (if Horizontal(s) then h.width == Max(most / 2, 100) else h.height == Max(most / 2, 60))
            && (if Horizontal(s) then h.y == b.y && h.height == b.height else h.x == b.x && h.width == b.width)
            && MovingEdge(h, Invert(s)) == MovingEdge(b, Invert(s))
  {
  }

  /** Of all outputs only the view's own is searched, if the motion touches its usable area. */
  lemma SearchedAreaIff(view: View, outputs: seq<Output>, origin: Box, geo: Box, b: Box)
    ensures b in Shrink.Areas(view, outputs, origin, geo) <==>
              view.output in outputs && view.output.usable && b == view.output.area && (b.Intersects(origin) || b.Intersects(geo))
  {
    NearOutputsIff(outputs, |outputs|, origin, geo, Some(view.output), b);
    if view.output in outputs {
      var k :| 0 <= k < |outputs| && outputs[k] == view.output;
    }
  }
}
