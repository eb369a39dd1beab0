/** snap_shrink_to_next_edge (src/snap.c): inwards to the next edge, but to no less than half the size. */
module Shrink {

  import opened Options
  import opened Geometry
  import opened Edges
  import opened Snap
  import opened SnapConstraints
  import opened Grow

  const MIN_WIDTH := 100
  const MIN_HEIGHT := 60

  /** The view with the side s moved in as far as the command may move it. */
  function Halved(b: Box, s: Side): Box {
    match s
    case Left => var w := Max(b.width / 2, MIN_WIDTH); b.(x := b.x + b.width - w, width := w)
    case Right => b.(width := Max(b.width / 2, MIN_WIDTH))
    case Top => var h := Max(b.height / 2, MIN_HEIGHT); b.(y := b.y + b.height - h, height := h)
    case Bottom => b.(height := Max(b.height / 2, MIN_HEIGHT))
  }

  /** The size along the axis on which s moves, and the least size there. */
  function Size(b: Box, s: Side): int {
    if Horizontal(s) then b.width else b.height
  }

  function MinSize(s: Side): int {
    if Horizontal(s) then MIN_WIDTH else MIN_HEIGHT
  }

  // ---- both searches together ----

  /** The edges that usable areas offer to the side s. */
  function AreaOffers(bs: seq<Box>, s: Side): set<int>
    requires IntBoxes(bs)
  {
    if bs == [] then {}
    else AreaOffers(bs[..|bs| - 1], s) + {Offset(BoxBorder(bs[|bs| - 1]), s), BuildEdge(UNBOUNDED, s, 0).offset}
  }

  lemma OutputStep(before: Border, view: Border, target: Border, usable: Box, s: Side)
    requires IntBorder(view) && IntBorder(target) && IntBorder(BoxBorder(usable))
    ensures Get(ValidateOutputEdges(before, view, target, usable, SnapCheck), s)
         == SnapCheck(Get(before, s), Edge(Offset(view, s), 0, 0), Edge(Offset(target, s), 0, 0),
                      Edge(Offset(BoxBorder(usable), s), 0, 0), Edge(BuildEdge(UNBOUNDED, s, 0).offset, 0, 0), true)
  {
  }

  lemma {:induction false} OutputsFindFirst(view: Border, target: Border, bs: seq<Box>, s: Side)
    requires IntBorder(view) && IntBorder(target) && IntBoxes(bs)
    requires Bounded(Offset(view, s)) && Bounded(Offset(target, s))
    ensures FirstMet(Get(FoldOutputs(UNBOUNDED, view, target, bs, SnapCheck), s), Get(UNBOUNDED, s), AreaOffers(bs, s),
                     Offset(view, s), Offset(target, s))
  {
    if bs != [] {
      var n := |bs| - 1;
      OutputsFindFirst(view, target, bs[..n], s);
      var before := FoldOutputs(UNBOUNDED, view, target, bs[..n], SnapCheck);
      OutputStep(before, view, target, bs[n], s);
      FirstMetStep(Get(before, s), Get(UNBOUNDED, s), AreaOffers(bs[..n], s),
                   Offset(BoxBorder(bs[n]), s), BuildEdge(UNBOUNDED, s, 0).offset, Offset(view, s), Offset(target, s));
    }
  }

  /** The extents of edges do not matter to the check. */
  lemma OffsetsDecide(before: int, view: Border, target: Border, q: Region, gap: int, s: Side)
    requires IntBorder(view) && IntBorder(target) && IntBorder(q.edges) && IsInt(gap)
    ensures ValidateRegionEdge(before, view, target, q.edges, q.visible, gap, SnapCheck, s)
         == SnapCheck(before, Edge(Offset(view, s), 0, 0), Edge(Offset(target, s), 0, 0),
                      Edge(Opposing(q, s), 0, 0), Edge(Aligned(q, s, gap), 0, 0), true)
  {
  }

  /** Searching the windows after the outputs finds the first edge of both. */
  lemma {:induction false} FoldFurther(best: int, init: int, offers: set<int>, view: Border, target: Border, rs: seq<Region>,
                                       gap: int, s: Side)
    requires IntBorder(view) && IntBorder(target) && IntRegions(rs) && IsInt(gap)
    requires !Bounded(init) && Bounded(Offset(view, s)) && Bounded(Offset(target, s))
    requires FirstMet(best, init, offers, Offset(view, s), Offset(target, s))
    ensures FirstMet(FoldSide(best, view, target, rs, gap, SnapCheck, s), init, offers + Offers(rs, s, gap),
                     Offset(view, s), Offset(target, s))
  {
    if rs != [] {
      var q, rest := rs[|rs| - 1], rs[..|rs| - 1];
      FoldFurther(best, init, offers, view, target, rest, gap, s);
      var before := FoldSide(best, view, target, rest, gap, SnapCheck, s);
      OffsetsDecide(before, view, target, q, gap, s);
      FirstMetStep(before, init, offers + Offers(rest, s, gap), Opposing(q, s), Aligned(q, s, gap), Offset(view, s), Offset(target, s));
      assert offers + Offers(rs, s, gap) == offers + Offers(rest, s, gap) + {Opposing(q, s), Aligned(q, s, gap)};
    }
  }

  // ---- the command ----

  predicate Searchable(cfg: Setting, bs: seq<Box>, origin: Box, geo: Box) {
    Foldable(cfg, origin, geo) && IntBoxes(bs)
  }

  function FoundEdges(cfg: Setting, bs: seq<Box>, origin: Box, geo: Box): Border
    requires Searchable(cfg, bs, origin, geo)
  {
    var from, to := EdgesForTarget(cfg.margin, cfg.gap, false, origin), EdgesForTarget(cfg.margin, cfg.gap, false, geo);
    FoldRegions(FoldOutputs(UNBOUNDED, from, to, bs, SnapCheck), from, to, cfg.rs, cfg.gap, SnapCheck)
  }

  /** The requested geometry and the new cache. */
  function Shrunk(cfg: Setting, bs: seq<Box>, pending: Box, hit: Hit, s: Side): (Box, Hit)
    requires Searchable(cfg, bs, Effective(hit, cfg.id, {s}, pending, pending), Halved(pending, s))
  {
    if Size(Halved(pending, s), s) == Size(pending, s) then (pending, hit)
    else
      var edges := FoundEdges(cfg, bs, Effective(hit, cfg.id, {s}, pending, pending), Halved(pending, s));
      var geo := AdjustResize(Halved(pending, s), edges, {s}, pending, cfg.margin, cfg.gap);
      (geo, Recorded(cfg.id, {s}, geo))
  }

  /** The areas that are searched: that of the view's own output, if the motion touches it. */
  function Areas(view: View, outputs: seq<Output>, origin: Box, geo: Box): seq<Box> {
    NearOutputs(outputs, |outputs|, origin, geo, Some(view.output))
  }

  function SettingOf(view: View, views: seq<View>, workspace: nat, thickness: Border, gap: int): Setting {
    Setting(view.id, SameOutput(views, view, workspace), view.output.area, view.margin, thickness, gap)
  }

  /** The command on a usable output; `dir` is the direction that is commanded, opposite to the side that moves. */
  method ShrinkToNextEdge(view: View, snap: LastSnapHit, views: seq<View>, outputs: seq<Output>, workspace: nat,
                          thickness: Border, gap: int, dir: Side)
    returns (geo: Box)
    requires !view.shaded && view.output.usable
    requires var s := Invert(dir);
             var origin, half := Effective(snap.hit, view.id, {s}, view.pending, view.pending), Halved(view.pending, s);
             Searchable(SettingOf(view, views, workspace, thickness, gap), Areas(view, outputs, origin, half), origin, half)
    modifies snap
    ensures var s := Invert(dir);
            var origin, half := Effective(old(snap.hit), view.id, {s}, view.pending, view.pending), Halved(view.pending, s);
            (geo, snap.hit) == Shrunk(SettingOf(view, views, workspace, thickness, gap), Areas(view, outputs, origin, half),
                                      view.pending, old(snap.hit), s)
  {
    geo := view.pending;
    var s;
    match dir {
      case Right =>
        geo := geo.(width := Max(geo.width / 2, MIN_WIDTH));
        geo := geo.(x := view.pending.x + view.pending.width - geo.width);
        s := Left;
      case Left =>
        geo := geo.(width := Max(geo.width / 2, MIN_WIDTH));
        s := Right;
      case Bottom =>
        geo := geo.(height := Max(geo.height / 2, MIN_HEIGHT));
        geo := geo.(y := view.pending.y + view.pending.height - geo.height);
        s := Top;
      case Top =>
        geo := geo.(height := Max(geo.height / 2, MIN_HEIGHT));
        s := Bottom;
    }
    assert geo == Halved(view.pending, s) && s == Invert(dir);
    if geo.width == view.pending.width && geo.height == view.pending.height {
      geo := view.pending;
      return;
    }
    var origin := Effective(snap.hit, view.id, {s}, view.pending, view.pending);
    var edges := FindOutputs(UNBOUNDED, outputs, view, origin, geo, Some(view.output), gap, SnapCheck);
    edges := FindNeighbors(edges, views, view, workspace, origin, geo, Some(view.output), gap, SnapCheck, false);
    geo := AdjustResize(geo, edges, {s}, view.pending, view.margin, gap);
    snap.Set(view.id, {s}, geo);
  }

  // ---- what a step finds ----

  /** q is the nearest offer, in the coordinates of the view, strictly ahead of `from` on the way to `limit`, or the limit. */
  ghost predicate NearestOffer(offers: set<int>, shift: int, from: int, limit: int, q: int) {
    && (q == limit || (q + shift in offers && Ahead(q, from, limit)))
    && forall o :: o in offers && Ahead(o - shift, from, limit) ==> q != from && Abs(q - from) <= Abs(o - shift - from)
  }

  /** The nearest edge of an output or a window, or the limit. */
  ghost predicate NextInwards(cfg: Setting, bs: seq<Box>, s: Side, from: int, limit: int, q: int)
    requires IntRegions(cfg.rs) && IsInt(cfg.gap) && IntBoxes(bs)
  {
    NearestOffer(AreaOffers(bs, s) + Offers(cfg.rs, s, cfg.gap), EdgeShift(cfg.margin, cfg.gap, s), from, limit, q)
  }

  lemma HalvedMovesOneEdge(pending: Box, s: Side)
    ensures Halved(pending, s) == WithEdge(pending, s, MovingEdge(Halved(pending, s), s))
    ensures Size(Halved(pending, s), s) == Max(Size(pending, s) / 2, MinSize(s))
  {
  }

  lemma AdjustsOneEdge(pending: Box, limit: int, edges: Border, s: Side, margin: Border, gap: int)
    ensures var q := if Bounded(Get(edges, s)) then Get(edges, s) - EdgeShift(margin, gap, s) else limit;
            var g := AdjustResize(WithEdge(pending, s, limit), edges, {s}, pending, margin, gap);
            g == WithEdge(pending, s, q) && MovingEdge(g, s) == q
  {
  }

  /** From the first edge met, in effective coordinates, to the nearest offer. */
  lemma FirstIsNearest(offers: set<int>, shift: int, r: int, init: int, from: int, limit: int)
    requires !Bounded(init) && FirstMet(r, init, offers, from + shift, limit + shift)
    ensures NearestOffer(offers, shift, from, limit, if Bounded(r) then r - shift else limit)
  {
    var q := if Bounded(r) then r - shift else limit;
    assert Bounded(r) ==> q + shift == r;
    forall o | o in offers && Ahead(o - shift, from, limit) ensures q != from && Abs(q - from) <= Abs(o - shift - from) {
      assert Ahead(o, from + shift, limit + shift);
    }
  }

  lemma FoundIsFirst(cfg: Setting, bs: seq<Box>, origin: Box, half: Box, s: Side)
    requires cfg.Exact() && Searchable(cfg, bs, origin, half)
    requires Abs(MovingEdge(origin, s)) < 0x4000_0000 && Abs(MovingEdge(half, s)) < 0x4000_0000
    ensures FirstMet(Get(FoundEdges(cfg, bs, origin, half), s), Get(UNBOUNDED, s), AreaOffers(bs, s) + Offers(cfg.rs, s, cfg.gap),
                     MovingEdge(origin, s) + EdgeShift(cfg.margin, cfg.gap, s), MovingEdge(half, s) + EdgeShift(cfg.margin, cfg.gap, s))
  {
    var from, to := EdgesForTarget(cfg.margin, cfg.gap, false, origin), EdgesForTarget(cfg.margin, cfg.gap, false, half);
    EdgePosition(cfg, origin, s);
    EdgePosition(cfg, half, s);
    BothFindFirst(from, to, bs, cfg.rs, cfg.gap, s);
  }

  lemma BothFindFirst(from: Border, to: Border, bs: seq<Box>, rs: seq<Region>, gap: int, s: Side)
    requires IntBorder(from) && IntBorder(to) && IntBoxes(bs) && IntRegions(rs) && IsInt(gap)
    requires Bounded(Offset(from, s)) && Bounded(Offset(to, s))
    ensures FirstMet(Get(FoldRegions(FoldOutputs(UNBOUNDED, from, to, bs, SnapCheck), from, to, rs, gap, SnapCheck), s),
                     Get(UNBOUNDED, s), AreaOffers(bs, s) + Offers(rs, s, gap), Offset(from, s), Offset(to, s))
  {
    var areas := FoldOutputs(UNBOUNDED, from, to, bs, SnapCheck);
    OutputsFindFirst(from, to, bs, s);
    FoldFurther(Get(areas, s), Get(UNBOUNDED, s), AreaOffers(bs, s), from, to, rs, gap, s);
    FoldBySide(areas, from, to, rs, gap, SnapCheck, s);
  }

  /** Three edges stay; the fourth stops at the first edge of an output or a window on its way in, or half way. */
  lemma ShrunkIsNextStop(cfg: Setting, bs: seq<Box>, pending: Box, hit: Hit, s: Side)
    requires cfg.Exact()
    requires Searchable(cfg, bs, Effective(hit, cfg.id, {s}, pending, pending), Halved(pending, s))
    requires Abs(MovingEdge(Effective(hit, cfg.id, {s}, pending, pending), s)) < 0x4000_0000
    requires Abs(MovingEdge(Halved(pending, s), s)) < 0x4000_0000
    requires Size(Halved(pending, s), s) != Size(pending, s)
    ensures var g := Shrunk(cfg, bs, pending, hit, s).0;
            && g == WithEdge(pending, s, MovingEdge(g, s))
            && NextInwards(cfg, bs, s, MovingEdge(Effective(hit, cfg.id, {s}, pending, pending), s),
                           MovingEdge(Halved(pending, s), s), MovingEdge(g, s))
  {
    HalvedMovesOneEdge(pending, s);
    SnapsInwards(cfg, bs, pending, Effective(hit, cfg.id, {s}, pending, pending), Halved(pending, s), s);
  }

  lemma SnapsInwards(cfg: Setting, bs: seq<Box>, pending: Box, origin: Box, half: Box, s: Side)
    requires cfg.Exact() && Searchable(cfg, bs, origin, half)
    requires Abs(MovingEdge(origin, s)) < 0x4000_0000 && Abs(MovingEdge(half, s)) < 0x4000_0000
    requires half == WithEdge(pending, s, MovingEdge(half, s))
    ensures var g := AdjustResize(half, FoundEdges(cfg, bs, origin, half), {s}, pending, cfg.margin, cfg.gap);
            && g == WithEdge(pending, s, MovingEdge(g, s))
            && NextInwards(cfg, bs, s, MovingEdge(origin, s), MovingEdge(half, s), MovingEdge(g, s))
  {
    FoundIsFirst(cfg, bs, origin, half, s);
    EdgesSnap(cfg, bs, pending, FoundEdges(cfg, bs, origin, half), MovingEdge(origin, s), MovingEdge(half, s), s);
  }

  lemma EdgesSnap(cfg: Setting, bs: seq<Box>, pending: Box, edges: Border, from: int, limit: int, s: Side)
    requires IntRegions(cfg.rs) && IsInt(cfg.gap) && IntBoxes(bs)
    requires FirstMet(Get(edges, s), Get(UNBOUNDED, s), AreaOffers(bs, s) + Offers(cfg.rs, s, cfg.gap),
                      from + EdgeShift(cfg.margin, cfg.gap, s), limit + EdgeShift(cfg.margin, cfg.gap, s))
    ensures var g := AdjustResize(WithEdge(pending, s, limit), edges, {s}, pending, cfg.margin, cfg.gap);
            && g == WithEdge(pending, s, MovingEdge(g, s))
            && NextInwards(cfg, bs, s, from, limit, MovingEdge(g, s))
  {
    FirstIsNearest(AreaOffers(bs, s) + Offers(cfg.rs, s, cfg.gap), EdgeShift(cfg.margin, cfg.gap, s),
                   Get(edges, s), Get(UNBOUNDED, s), from, limit);
    AdjustsOneEdge(pending, limit, edges, s, cfg.margin, cfg.gap);
  }

  // ---- in terms of sizes ----

  /** The size along the moving axis if side s of the view were at p. */
  function SizeAt(b: Box, s: Side, p: int): int {
    Size(WithEdge(b, s, p), s)
  }

  /** The sizes at which the view would meet an edge of the output or of a neighbour. */
  function StopSizes(cfg: Setting, bs: seq<Box>, b: Box, s: Side): set<int>
    requires IntRegions(cfg.rs) && IsInt(cfg.gap) && IntBoxes(bs)
  {
    set o | o in AreaOffers(bs, s) + Offers(cfg.rs, s, cfg.gap) :: SizeAt(b, s, o - EdgeShift(cfg.margin, cfg.gap, s))
  }

  lemma SizesAreDistances(b: Box, s: Side, p: int, q: int)
    ensures Abs(SizeAt(b, s, p) - SizeAt(b, s, q)) == Abs(p - q)
    ensures SizeAt(b, s, p) == SizeAt(b, s, q) <==> p == q
  {
  }

  lemma AheadBySize(b: Box, s: Side, p: int, from: int, limit: int)
    ensures Ahead(p, from, limit) <==> Ahead(SizeAt(b, s, p), SizeAt(b, s, from), SizeAt(b, s, limit))
  {
  }

  /** q is no further from `from` than p, if p is on the way: the same in sizes. */
  lemma NotFurtherBySize(b: Box, s: Side, q: int, p: int, from: int, limit: int)
    requires Ahead(p, from, limit) ==> q != from && Abs(q - from) <= Abs(p - from)
    ensures Ahead(SizeAt(b, s, p), SizeAt(b, s, from), SizeAt(b, s, limit)) ==>
              SizeAt(b, s, q) != SizeAt(b, s, from)
              && Abs(SizeAt(b, s, q) - SizeAt(b, s, from)) <= Abs(SizeAt(b, s, p) - SizeAt(b, s, from))
  {
    AheadBySize(b, s, p, from, limit);
    SizesAreDistances(b, s, q, from);
    SizesAreDistances(b, s, p, from);
  }

  /** The nearest edge inwards is the nearest size. */
  lemma NearestSize(cfg: Setting, bs: seq<Box>, b: Box, s: Side, from: int, limit: int, q: int)
    requires IntRegions(cfg.rs) && IsInt(cfg.gap) && IntBoxes(bs) && NextInwards(cfg, bs, s, from, limit, q)
    ensures NearestOffer(StopSizes(cfg, bs, b, s), 0, SizeAt(b, s, from), SizeAt(b, s, limit), SizeAt(b, s, q))
  {
    var shift, offers := EdgeShift(cfg.margin, cfg.gap, s), AreaOffers(bs, s) + Offers(cfg.rs, s, cfg.gap);
    AheadBySize(b, s, q, from, limit);
    assert q == q + shift - shift;
    OffersBySize(b, s, offers, shift, from, limit, q, StopSizes(cfg, bs, b, s));
  }

  lemma OffersBySize(b: Box, s: Side, offers: set<int>, shift: int, from: int, limit: int, q: int, sizes: set<int>)
    requires NearestOffer(offers, shift, from, limit, q)
    requires forall x :: x in sizes <==> exists o :: o in offers && x == SizeAt(b, s, o - shift)
    ensures NearestOffer(sizes, 0, SizeAt(b, s, from), SizeAt(b, s, limit), SizeAt(b, s, q))
  {
    if q != limit {
      AheadBySize(b, s, q, from, limit);
      assert q + shift in offers && q + shift - shift == q;
    }
    forall x | x in sizes && Ahead(x - 0, SizeAt(b, s, from), SizeAt(b, s, limit))
      ensures SizeAt(b, s, q) != SizeAt(b, s, from)
      ensures Abs(SizeAt(b, s, q) - SizeAt(b, s, from)) <= Abs(x - 0 - SizeAt(b, s, from))
    {
      var o :| o in offers && x == SizeAt(b, s, o - shift);
      NotFurtherBySize(b, s, q, o - shift, from, limit);
    }
  }

  /** Some stop is at a size from lo up to, not including, hi. */
  predicate StopIn(sizes: set<int>, lo: int, hi: int) {
    exists x <- sizes :: lo <= x < hi
  }

  /**
   * How the size that is asked for compares with the actual size w, if the
   * search goes from size m to size h: half of w or the least size.
   */
  lemma NearestComparesIff(sizes: set<int>, m: int, w: int, least: int, h: int, x: int)
    requires h == Max(w / 2, least) && w != least && least > 0 && NearestOffer(sizes, 0, m, h, x)
    ensures x < w <==> (w > least && !StopIn(sizes, w, m)) || (w < least && StopIn(sizes, m + 1, w))
    ensures x > w <==> (w > least && StopIn(sizes, w + 1, m)) || (w < least && !StopIn(sizes, m + 1, w + 1))
  {
    if w > least {
      assert h < w;
      forall y | y in sizes && w <= y < m ensures x >= y {
        assert Ahead(y - 0, m, h);
      }
    } else {
      forall y | y in sizes && m < y <= w ensures x <= y {
        assert Ahead(y - 0, m, h);
      }
    }
  }

  /** The size that the remembered edge stands for, or the actual one if none is remembered. */
  function SearchSize(cfg: Setting, pending: Box, hit: Hit, s: Side): int {
    SizeAt(pending, s, MovingEdge(Effective(hit, cfg.id, {s}, pending, pending), s))
  }

  /** The arithmetic of the command is exact. */
  predicate Exactly(cfg: Setting, bs: seq<Box>, pending: Box, hit: Hit, s: Side) {
    var origin := Effective(hit, cfg.id, {s}, pending, pending);
    && cfg.Exact() && Searchable(cfg, bs, origin, Halved(pending, s))
    && Abs(MovingEdge(origin, s)) < 0x4000_0000 && Abs(MovingEdge(Halved(pending, s), s)) < 0x4000_0000
  }

  /**
   * The command makes the view smaller exactly if it is larger than the least
   * size and no edge lies between its actual and its remembered size, the actual
   * one included; or if it is smaller than the least size and some edge lies
   * strictly between a remembered size below the actual one and that.
   */
  lemma ShrinksIff(cfg: Setting, bs: seq<Box>, pending: Box, hit: Hit, s: Side)
    requires Exactly(cfg, bs, pending, hit, s)
    ensures var w, m, least := Size(pending, s), SearchSize(cfg, pending, hit, s), MinSize(s);
            var sizes := StopSizes(cfg, bs, pending, s);
            Size(Shrunk(cfg, bs, pending, hit, s).0, s) < w <==>
              (w > least && !StopIn(sizes, w, m)) || (w < least && StopIn(sizes, m + 1, w))
  {
    ShrunkCompares(cfg, bs, pending, hit, s);
  }

  /** And it makes the view larger in the mirrored cases. */
  lemma EnlargesIff(cfg: Setting, bs: seq<Box>, pending: Box, hit: Hit, s: Side)
    requires Exactly(cfg, bs, pending, hit, s)
    ensures var w, m, least := Size(pending, s), SearchSize(cfg, pending, hit, s), MinSize(s);
            var sizes := StopSizes(cfg, bs, pending, s);
            Size(Shrunk(cfg, bs, pending, hit, s).0, s) > w <==>
              (w > least && StopIn(sizes, w + 1, m)) || (w < least && !StopIn(sizes, m + 1, w + 1))
  {
    ShrunkCompares(cfg, bs, pending, hit, s);
  }

  lemma ShrunkCompares(cfg: Setting, bs: seq<Box>, pending: Box, hit: Hit, s: Side)
    requires Exactly(cfg, bs, pending, hit, s)
    ensures var w, m, least := Size(pending, s), SearchSize(cfg, pending, hit, s), MinSize(s);
            var x, sizes := Size(Shrunk(cfg, bs, pending, hit, s).0, s), StopSizes(cfg, bs, pending, s);
            && (w == least ==> x == w)
            && (w != least ==>
                  && (x < w <==> (w > least && !StopIn(sizes, w, m)) || (w < least && StopIn(sizes, m + 1, w)))
                  && (x > w <==> (w > least && StopIn(sizes, w + 1, m)) || (w < least && !StopIn(sizes, m + 1, w + 1))))
  {
    HalvedMovesOneEdge(pending, s);
    if Size(pending, s) != MinSize(s) {
      var g, origin := Shrunk(cfg, bs, pending, hit, s).0, Effective(hit, cfg.id, {s}, pending, pending);
      ShrunkIsNextStop(cfg, bs, pending, hit, s);
      NearestSize(cfg, bs, pending, s, MovingEdge(origin, s), MovingEdge(Halved(pending, s), s), MovingEdge(g, s));
      NearestComparesIff(StopSizes(cfg, bs, pending, s), SearchSize(cfg, pending, hit, s), Size(pending, s), MinSize(s),
                         Size(Halved(pending, s), s), Size(g, s));
    }
  }

  /**
   * Without a remembered edge the command makes the view smaller exactly if it
   * is larger than the least size, and never below half of it; a view smaller
   * than the least size is made larger instead.
   */
  lemma ShrinksIffLarger(cfg: Setting, bs: seq<Box>, pending: Box, hit: Hit, s: Side)
    requires cfg.Exact() && !Valid(hit, cfg.id, {s}, pending)
    requires Searchable(cfg, bs, pending, Halved(pending, s))
    requires Abs(MovingEdge(pending, s)) < 0x4000_0000 && Abs(MovingEdge(Halved(pending, s), s)) < 0x4000_0000
    ensures var g := Shrunk(cfg, bs, pending, hit, s).0;
            && (Size(g, s) < Size(pending, s) <==> Size(pending, s) > MinSize(s))
            && (Size(pending, s) > MinSize(s) ==> Size(g, s) >= Max(Size(pending, s) / 2, MinSize(s)))
            && (Size(pending, s) == MinSize(s) ==> g == pending)
            && (Size(pending, s) < MinSize(s) ==> Size(pending, s) < Size(g, s) <= MinSize(s))
  {
    HalvedMovesOneEdge(pending, s);
    if Size(Halved(pending, s), s) != Size(pending, s) {
      ShrunkIsNextStop(cfg, bs, pending, hit, s);
    }
  }
}
