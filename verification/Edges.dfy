/** Moving edges, the edges of other windows and outputs, and the fold that picks one (src/edges.c, include/edges.h). */
module Edges {
  import opened Options
  import opened Geometry

  // ---- saturating arithmetic ----

  function ClippedAdd(a: int, b: int): (r: int)
    ensures IsInt(a) && IsInt(b) ==> r == Max(INT_MIN, Min(INT_MAX, a + b))
  {
    if b > 0 then
      (if a >= INT_MAX - b then INT_MAX else a + b)
    else if b < 0 then
      (if a <= INT_MIN - b then INT_MIN else a + b)
    else a
  }

  function ClippedSub(a: int, b: int): (r: int)
    ensures IsInt(a) && IsInt(b) ==> r == Max(INT_MIN, Min(INT_MAX, a - b))
  {
    if b > 0 then
      (if a <= INT_MIN + b then INT_MIN else a - b)
    else if b < 0 then
      (if a >= INT_MAX + b then INT_MAX else a - b)
    else a
  }

  /** The better of two snap points; sentinels lose against any bounded value. */
  function EdgeGetBest(next: int, edge: int, decreasing: bool): int {
    if !Bounded(next) then (if Bounded(edge) then edge else next)
    else if !Bounded(edge) then next
    else if decreasing then Max(next, edge)
    else Min(next, edge)
  }

  // ---- edges of regions ----

  datatype Side = Top | Bottom | Left | Right

  function Invert(s: Side): Side {
    match s
    case Top => Bottom
    case Bottom => Top
    case Left => Right
    case Right => Left
  }

  predicate IsLesser(s: Side) {
    s == Left || s == Top
  }

  function LesserSide(horizontal: bool): Side {
    if horizontal then Left else Top
  }

  function GreaterSide(horizontal: bool): Side {
    if horizontal then Right else Bottom
  }

  const ALL_SIDES: set<Side> := {Top, Bottom, Left, Right}

  datatype Edge = Edge(offset: int, min: int, max: int)

  predicate IntBorder(b: Border) {
    IsInt(b.top) && IsInt(b.right) && IsInt(b.bottom) && IsInt(b.left)
  }

  function Get(b: Border, s: Side): int {
    match s
    case Top => b.top
    case Bottom => b.bottom
    case Left => b.left
    case Right => b.right
  }

  function BuildEdge(region: Border, s: Side, pad: int): Edge
    requires IntBorder(region) && IsInt(pad)
  {
    match s
    case Left => Edge(ClippedSub(region.left, pad), region.top, region.bottom)
    case Right => Edge(ClippedAdd(region.right, pad), region.top, region.bottom)
    case Top => Edge(ClippedSub(region.top, pad), region.left, region.right)
    case Bottom => Edge(ClippedAdd(region.bottom, pad), region.left, region.right)
  }

  /** The effective position of one side: that of its edge without padding. */
  function Offset(b: Border, s: Side): (r: int)
    requires IntBorder(b)
    ensures r == BuildEdge(b, s, 0).offset
  {
    Get(b, s)
  }

  function BuildVisibleEdge(region: Border, s: Side, pad: int, visible: set<Side>): Edge
    requires IntBorder(region) && IsInt(pad)
  {
    var edge := BuildEdge(region, s, pad);
    if s in visible then edge else edge.(offset := if IsLesser(s) then INT_MIN else INT_MAX)
  }

  const UNBOUNDED := Border(INT_MIN, INT_MAX, INT_MAX, INT_MIN)

  /** edges_for_target_geometry */
  function EdgesForTarget(margin: Border, gap: int, shaded: bool, target: Box): Border {
    var h := if shaded then 0 else target.height;
    Border(target.y - margin.top - gap,
           target.x + target.width + margin.right + gap,
           target.y + h + margin.bottom + gap,
           target.x - margin.left - gap)
  }

  // ---- the validator fold ----

  /** best, current, target, oppose, align, lesser; the result is the new best. */
  type Validator = (int, Edge, Edge, Edge, Edge, bool) -> int

  /** validate_single_region_edge */
  function ValidateRegionEdge(best: int, view: Border, target: Border, region: Border, visible: set<Side>,
                              gap: int, v: Validator, s: Side): int
    requires IntBorder(view) && IntBorder(target) && IntBorder(region) && IsInt(gap)
  {
    v(best, BuildEdge(view, s, 0), BuildEdge(target, s, 0),
      BuildVisibleEdge(region, Invert(s), 0, visible), BuildVisibleEdge(region, s, gap, visible), IsLesser(s))
  }

  /** validate_edges */
  function ValidateEdges(best: Border, view: Border, target: Border, region: Border, visible: set<Side>,
                         gap: int, v: Validator): Border
    requires IntBorder(view) && IntBorder(target) && IntBorder(region) && IsInt(gap)
  {
    Border(ValidateRegionEdge(best.top, view, target, region, visible, gap, v, Top),
           ValidateRegionEdge(best.right, view, target, region, visible, gap, v, Right),
           ValidateRegionEdge(best.bottom, view, target, region, visible, gap, v, Bottom),
           ValidateRegionEdge(best.left, view, target, region, visible, gap, v, Left))
  }

  /** validate_single_output_edge */
  function ValidateOutputEdge(best: int, view: Border, target: Border, region: Border, v: Validator, s: Side): int
    requires IntBorder(view) && IntBorder(target) && IntBorder(region)
  {
    v(best, BuildEdge(view, s, 0), BuildEdge(target, s, 0), BuildEdge(region, s, 0), BuildEdge(UNBOUNDED, s, 0), IsLesser(s))
  }

  function BoxBorder(b: Box): Border {
    Border(b.y, b.Right(), b.Bottom(), b.x)
  }

  /** validate_output_edges */
  function ValidateOutputEdges(best: Border, view: Border, target: Border, usable: Box, v: Validator): Border
    requires IntBorder(view) && IntBorder(target) && IntBorder(BoxBorder(usable))
  {
    Border(ValidateOutputEdge(best.top, view, target, BoxBorder(usable), v, Top),
           ValidateOutputEdge(best.right, view, target, BoxBorder(usable), v, Right),
           ValidateOutputEdge(best.bottom, view, target, BoxBorder(usable), v, Bottom),
           ValidateOutputEdge(best.left, view, target, BoxBorder(usable), v, Left))
  }

  // ---- neighbours and outputs ----

  /** What the edge search reads of a view on the current workspace. */
  datatype View = View(id: nat, output: Output, outputs: set<nat>, current: Box, pending: Box, margin: Border,
                       shaded: bool, minimized: bool, focusable: bool, workspace: nat, visible: set<Side>)
  {
    function EffectiveHeight(usePending: bool): int {
      if shaded then 0 else if usePending then pending.height else current.height
    }

    /** The decorated window, from its current geometry. */
    function WinEdges(): Border {
      Border(current.y - margin.top,
             current.x + current.width + margin.right,
             current.y + margin.bottom + EffectiveHeight(false),
             current.x - margin.left)
    }
  }

  /** The conditions under which edges_find_neighbors skips v. */
  predicate IsNeighbor(v: View, view: View, workspace: nat, only: Option<Output>, ignoreHidden: bool) {
    && v.focusable && v.workspace == workspace
    && v.id != view.id && !v.minimized && v.output.usable
    && (ignoreHidden ==> v.visible != {})
    && (only.Some? ==> only.value == v.output || only.value.id in v.outputs)
    && (view.output == v.output || view.outputs * v.outputs != {})
  }

  /**
   The windows that a motion can meet: shown on the current workspace, with a side that counts, on the output
   asked for, and on an output that they share with the view.
   */
  predicate InTheWay(v: View, view: View, workspace: nat, only: Option<Output>, ignoreHidden: bool) {
    && v.id != view.id && v.workspace == workspace && v.focusable && !v.minimized && v.output.usable
    && (ignoreHidden ==> exists s :: s in v.visible)
    && (only == None || only == Some(v.output) || only.value.id in v.outputs)
    && (v.output == view.output || exists o :: o in view.outputs && o in v.outputs)
  }

  lemma NeighborIff(v: View, view: View, workspace: nat, only: Option<Output>, ignoreHidden: bool)
    ensures IsNeighbor(v, view, workspace, only, ignoreHidden) <==> InTheWay(v, view, workspace, only, ignoreHidden)
  {
    assert forall o :: o in view.outputs && o in v.outputs <==> o in view.outputs * v.outputs;
  }

  datatype Region = Region(edges: Border, visible: set<Side>)

  /** The regions that the first n views contribute, in stacking order. */
  function Neighbors(views: seq<View>, n: nat, view: View, workspace: nat, only: Option<Output>, ignoreHidden: bool): seq<Region>
    requires n <= |views|
  {
    if n == 0 then []
    else if IsNeighbor(views[n - 1], view, workspace, only, ignoreHidden) then
      Neighbors(views, n - 1, view, workspace, only, ignoreHidden)
      + [Region(views[n - 1].WinEdges(), if ignoreHidden then views[n - 1].visible else ALL_SIDES)]
    else Neighbors(views, n - 1, view, workspace, only, ignoreHidden)
  }

  /** Each window in the way offers its decorated box, with all sides or only the visible ones. */
  predicate OffersRegion(v: View, view: View, workspace: nat, only: Option<Output>, ignoreHidden: bool, r: Region) {
    && InTheWay(v, view, workspace, only, ignoreHidden)
    && r.edges.left == v.current.x - v.margin.left && r.edges.right == v.current.Right() + v.margin.right
    && r.edges.top == v.current.y - v.margin.top
    && r.edges.bottom == (if v.shaded then v.current.y else v.current.Bottom()) + v.margin.bottom
    && forall s :: s in r.visible <==> ignoreHidden ==> s in v.visible
  }

  lemma {:induction false} NeighborsIff(views: seq<View>, n: nat, view: View, workspace: nat, only: Option<Output>, ignoreHidden: bool,
                                        r: Region)
    requires n <= |views|
    ensures r in Neighbors(views, n, view, workspace, only, ignoreHidden)
            <==> exists k :: 0 <= k < n && OffersRegion(views[k], view, workspace, only, ignoreHidden, r)
  {
    if n > 0 {
      NeighborsIff(views, n - 1, view, workspace, only, ignoreHidden, r);
      NeighborIff(views[n - 1], view, workspace, only, ignoreHidden);
      forall s: Side ensures s in ALL_SIDES {
        match s
        case Top => case Bottom => case Left => case Right =>
      }
      assert OffersRegion(views[n - 1], view, workspace, only, ignoreHidden, r) ==>
          r.visible == if ignoreHidden then views[n - 1].visible else ALL_SIDES;
    }
  }

  predicate IntRegions(rs: seq<Region>) {
    forall r :: r in rs ==> IntBorder(r.edges)
  }

  function FoldRegions(best: Border, view: Border, target: Border, rs: seq<Region>, gap: int, v: Validator): Border
    requires IntBorder(view) && IntBorder(target) && IntRegions(rs) && IsInt(gap)
  {
    if rs == [] then best
    else
      var r := rs[|rs| - 1];
      ValidateEdges(FoldRegions(best, view, target, rs[..|rs| - 1], gap, v), view, target, r.edges, r.visible, gap, v)
  }

  /** The fold seen from one side. */
  function FoldSide(best: int, view: Border, target: Border, rs: seq<Region>, gap: int, v: Validator, s: Side): int
    requires IntBorder(view) && IntBorder(target) && IntRegions(rs) && IsInt(gap)
  {
    if rs == [] then best
    else
      var r := rs[|rs| - 1];
      ValidateRegionEdge(FoldSide(best, view, target, rs[..|rs| - 1], gap, v, s), view, target, r.edges, r.visible, gap, v, s)
  }

  lemma {:induction false} FoldBySide(best: Border, view: Border, target: Border, rs: seq<Region>, gap: int, v: Validator, s: Side)
    requires IntBorder(view) && IntBorder(target) && IntRegions(rs) && IsInt(gap)
    ensures Get(FoldRegions(best, view, target, rs, gap, v), s) == FoldSide(Get(best, s), view, target, rs, gap, v, s)
  {
    if rs != [] {
      FoldBySide(best, view, target, rs[..|rs| - 1], gap, v, s);
    }
  }

  lemma {:induction false} NeighborsGrow(views: seq<View>, k: nat, n: nat, view: View, workspace: nat, only: Option<Output>, ignoreHidden: bool)
    requires k <= n <= |views|
    ensures Neighbors(views, k, view, workspace, only, ignoreHidden) <= Neighbors(views, n, view, workspace, only, ignoreHidden)
    decreases n
  {
    if k < n {
      NeighborsGrow(views, k, n - 1, view, workspace, only, ignoreHidden);
    }
  }

  lemma FoldStep(best: Border, view: Border, target: Border, rs: seq<Region>, r: Region, gap: int, v: Validator)
    requires IntBorder(view) && IntBorder(target) && IntRegions(rs + [r]) && IsInt(gap)
    ensures IntRegions(rs) && IntBorder(r.edges)
    ensures FoldRegions(best, view, target, rs + [r], gap, v)
         == ValidateEdges(FoldRegions(best, view, target, rs, gap, v), view, target, r.edges, r.visible, gap, v)
  {
    assert (rs + [r])[..|rs|] == rs;
    assert r in rs + [r];
    forall q | q in rs ensures IntBorder(q.edges) {
      assert q in rs + [r];
    }
  }

  lemma IntRegionsPrefix(rs: seq<Region>, qs: seq<Region>)
    requires rs <= qs && IntRegions(qs)
    ensures IntRegions(rs)
  {
    forall r | r in rs ensures IntBorder(r.edges) {
      assert r in qs;
    }
  }

  /** edges_find_neighbors */
  method FindNeighbors(nearest: Border, views: seq<View>, view: View, workspace: nat, origin: Box, target: Box,
                       only: Option<Output>, gap: int, validator: Validator, ignoreHidden: bool)
    returns (edges: Border)
    requires IntRegions(Neighbors(views, |views|, view, workspace, only, ignoreHidden)) && IsInt(gap)
    requires IntBorder(EdgesForTarget(view.margin, gap, view.shaded, origin))
    requires IntBorder(EdgesForTarget(view.margin, gap, view.shaded, target))
    ensures edges == if !view.output.usable then nearest
                     else FoldRegions(nearest, EdgesForTarget(view.margin, gap, view.shaded, origin),
                                      EdgesForTarget(view.margin, gap, view.shaded, target),
                                      Neighbors(views, |views|, view, workspace, only, ignoreHidden), gap, validator)
  {
    edges := nearest;
    if !view.output.usable {
      return;
    }
    var viewEdges := EdgesForTarget(view.margin, gap, view.shaded, origin);
    var targetEdges := EdgesForTarget(view.margin, gap, view.shaded, target);
    for k := 0 to |views|
      invariant IntRegions(Neighbors(views, k, view, workspace, only, ignoreHidden))
      invariant edges == FoldRegions(nearest, viewEdges, targetEdges,
                                     Neighbors(views, k, view, workspace, only, ignoreHidden), gap, validator)
    {
      var v := views[k];
      if IsNeighbor(v, view, workspace, only, ignoreHidden) {
        var visible := if ignoreHidden then v.visible else ALL_SIDES;
        ghost var before, next := Neighbors(views, k, view, workspace, only, ignoreHidden),
                                  Neighbors(views, k + 1, view, workspace, only, ignoreHidden);
        NeighborsGrow(views, k + 1, |views|, view, workspace, only, ignoreHidden);
        IntRegionsPrefix(next, Neighbors(views, |views|, view, workspace, only, ignoreHidden));
        FoldStep(nearest, viewEdges, targetEdges, before, Region(v.WinEdges(), visible), gap, validator);
        edges := ValidateEdges(edges, viewEdges, targetEdges, v.WinEdges(), visible, gap, validator);
      }
    }
  }

  /** The usable areas that edges_find_outputs looks at. */
  function NearOutputs(outputs: seq<Output>, n: nat, origin: Box, target: Box, only: Option<Output>): seq<Box>
    requires n <= |outputs|
  {
    if n == 0 then []
    else
      var o := outputs[n - 1];
      if o.usable && (only.Some? ==> o == only.value) && (origin.Intersects(o.area) || target.Intersects(o.area)) then
        NearOutputs(outputs, n - 1, origin, target, only) + [o.area]
      else NearOutputs(outputs, n - 1, origin, target, only)
  }

  lemma {:induction false} NearOutputsIff(outputs: seq<Output>, n: nat, origin: Box, target: Box, only: Option<Output>, b: Box)
    requires n <= |outputs|
    ensures b in NearOutputs(outputs, n, origin, target, only)
            <==> exists k :: 0 <= k < n && outputs[k].usable && only in {None, Some(outputs[k])} && outputs[k].area == b
                             && (b.Intersects(origin) || b.Intersects(target))
  {
    if n > 0 {
      NearOutputsIff(outputs, n - 1, origin, target, only, b);
    }
  }

  predicate IntBoxes(bs: seq<Box>) {
    forall b :: b in bs ==> IntBorder(BoxBorder(b))
  }

  function FoldOutputs(best: Border, view: Border, target: Border, bs: seq<Box>, v: Validator): Border
    requires IntBorder(view) && IntBorder(target) && IntBoxes(bs)
  {
    if bs == [] then best
    else ValidateOutputEdges(FoldOutputs(best, view, target, bs[..|bs| - 1], v), view, target, bs[|bs| - 1], v)
  }

  lemma {:induction false} NearOutputsGrow(outputs: seq<Output>, k: nat, n: nat, origin: Box, target: Box, only: Option<Output>)
    requires k <= n <= |outputs|
    ensures NearOutputs(outputs, k, origin, target, only) <= NearOutputs(outputs, n, origin, target, only)
    decreases n
  {
    if k < n {
      NearOutputsGrow(outputs, k, n - 1, origin, target, only);
    }
  }

  lemma FoldOutputStep(best: Border, view: Border, target: Border, bs: seq<Box>, b: Box, v: Validator)
    requires IntBorder(view) && IntBorder(target) && IntBoxes(bs + [b])
    ensures IntBoxes(bs) && IntBorder(BoxBorder(b))
    ensures FoldOutputs(best, view, target, bs + [b], v)
         == ValidateOutputEdges(FoldOutputs(best, view, target, bs, v), view, target, b, v)
  {
    assert (bs + [b])[..|bs|] == bs;
    assert b in bs + [b];
    forall q | q in bs ensures IntBorder(BoxBorder(q)) {
      assert q in bs + [b];
    }
  }

  lemma IntBoxesPrefix(bs: seq<Box>, cs: seq<Box>)
    requires bs <= cs && IntBoxes(cs)
    ensures IntBoxes(bs)
  {
    forall b | b in bs ensures IntBorder(BoxBorder(b)) {
      assert b in cs;
    }
  }

  /** edges_find_outputs */
  method FindOutputs(nearest: Border, outputs: seq<Output>, view: View, origin: Box, target: Box,
                     only: Option<Output>, gap: int, validator: Validator)
    returns (edges: Border)
    requires IntBoxes(NearOutputs(outputs, |outputs|, origin, target, only))
    requires IntBorder(EdgesForTarget(view.margin, gap, view.shaded, origin))
    requires IntBorder(EdgesForTarget(view.margin, gap, view.shaded, target))
    ensures edges == if !view.output.usable then nearest
                     else FoldOutputs(nearest, EdgesForTarget(view.margin, gap, view.shaded, origin),
                                      EdgesForTarget(view.margin, gap, view.shaded, target),
                                      NearOutputs(outputs, |outputs|, origin, target, only), validator)
  {
    edges := nearest;
    if !view.output.usable {
      return;
    }
    var viewEdges := EdgesForTarget(view.margin, gap, view.shaded, origin);
    var targetEdges := EdgesForTarget(view.margin, gap, view.shaded, target);
    for k := 0 to |outputs|
      invariant IntBoxes(NearOutputs(outputs, k, origin, target, only))
      invariant edges == FoldOutputs(nearest, viewEdges, targetEdges, NearOutputs(outputs, k, origin, target, only), validator)
    {
      var o := outputs[k];
      if !o.usable || (only.Some? && o != only.value) {
        continue;
      }
      if !origin.Intersects(o.area) && !target.Intersects(o.area) {
        continue;
      }
      NearOutputsGrow(outputs, k + 1, |outputs|, origin, target, only);
      IntBoxesPrefix(NearOutputs(outputs, k + 1, origin, target, only), NearOutputs(outputs, |outputs|, origin, target, only));
      FoldOutputStep(nearest, viewEdges, targetEdges, NearOutputs(outputs, k, origin, target, only), o.area, validator);
      edges := ValidateOutputEdges(edges, viewEdges, targetEdges, o.area, validator);
    }
  }

  // ---- applying the result ----

  /** adjust_move_coords_1d: the new value of the coordinate */
  function AdjustMove1d(edge: int, lesser: int, lesserOffset: int, greater: int, greaterOffset: int, decreasing: bool): int
    requires IsInt(lesser) && IsInt(lesserOffset) && IsInt(greater) && IsInt(greaterOffset)
  {
    var first := if Bounded(lesser) then ClippedAdd(lesser, lesserOffset) else INT_MAX;
    var best := if Bounded(greater) then EdgeGetBest(first, ClippedSub(greater, greaterOffset), decreasing) else first;
    if Bounded(best) then best else edge
  }

  /** edges_adjust_move_coords on one axis: `pos` is where the view is, `want` where it is asked to go. */
  function AdjustMoveAxis(pos: int, want: int, lesser: int, near: int, greater: int, far: int): int
    requires IsInt(lesser) && IsInt(near) && IsInt(greater) && IsInt(far)
  {
    if pos != want then AdjustMove1d(want, lesser, near, greater, far, want < pos) else want
  }

  /** Distance from a view's coordinate to its leading/trailing effective edges, gap included. */
  function NearShift(margin: Border, gap: int, horizontal: bool): int {
    if horizontal then margin.left + gap else margin.top + gap
  }

  function FarShift(margin: Border, gap: int, horizontal: bool, width: int, effHeight: int): int {
    if horizontal then margin.right + gap + width else margin.bottom + gap + effHeight
  }

  /** edges_adjust_resize_geom */
  function AdjustResize(geom: Box, edges: Border, sides: set<Side>, viewGeom: Box, margin: Border, gap: int): Box {
    var g1 :=
      if Left in sides then
        (if Bounded(edges.left) then
           var x := edges.left + margin.left + gap;
           geom.(x := x, width := viewGeom.width + viewGeom.x - x)
         else geom)
      else if Right in sides then
        (if Bounded(edges.right) then geom.(width := edges.right - viewGeom.x - margin.right - gap) else geom)
      else geom;
    if Top in sides then
      (if Bounded(edges.top) then
         var y := edges.top + margin.top + gap;
         g1.(y := y, height := viewGeom.height + viewGeom.y - y)
       else g1)
    else if Bottom in sides then
      (if Bounded(edges.bottom) then g1.(height := edges.bottom - viewGeom.y - margin.bottom - gap) else g1)
    else g1
  }
}
