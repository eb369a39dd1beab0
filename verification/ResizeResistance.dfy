/** Edge resistance for interactive resizes (src/resistance.c). */
module ResizeResistance {

  import opened Options
  import opened Geometry
  import opened Edges
  import opened SnapConstraints
  import opened Grow
  import Resistance

  /** The geometry is so small that its edges are exact. */
  predicate Exact(view: View, gap: int, b: Box) {
    SmallBox(b) && SmallBorder(view.margin) && Small(gap)
  }

  /** The effective position of side s of a box. */
  function EffectiveEdge(view: View, gap: int, b: Box, s: Side): int {
    MovingEdge(b, s) + EdgeShift(view.margin, gap, s)
  }

  lemma EffectiveEdges(view: View, gap: int, b: Box, s: Side)
    requires Exact(view, gap, b) && !view.shaded
    ensures Resistance.Proper(Resistance.EdgesAt(view, gap, b))
    ensures Get(Resistance.EdgesAt(view, gap, b), s) == EffectiveEdge(view, gap, b, s)
  {
  }

  /** A side that is asked to go to its place in `want` ends where it is held first, or there if it is not held. */
  ghost predicate SideHeld(m: Resistance.Motion, traverse: Resistance.Traverse, want: Box, got: Box, s: Side) {
    var start := m.from.offset + m.shift;
    if Resistance.Stops(m, traverse, MovingEdge(got, s)) then
      forall p :: Resistance.Stops(m, traverse, p) ==> Abs(MovingEdge(got, s) - start) <= Abs(p - start)
    else MovingEdge(got, s) == MovingEdge(want, s) && forall p :: !Resistance.Stops(m, traverse, p)
  }

  /** A dragged side is changed exactly if it is held, and not first of all where it is asked to go. */
  lemma SideHeldIff(m: Resistance.Motion, traverse: Resistance.Traverse, want: Box, got: Box, s: Side)
    requires SideHeld(m, traverse, want, got, s) && m.to.offset + m.shift == MovingEdge(want, s)
    ensures var start, goal := m.from.offset + m.shift, MovingEdge(want, s);
            MovingEdge(got, s) != goal <==>
              exists p :: Resistance.Stops(m, traverse, p) && p != goal
                          && (Resistance.Stops(m, traverse, goal) ==> Abs(p - start) < Abs(goal - start))
  {
  }

  /** One side of the result: as requested, or at an offered edge no further than `reach` from the request. */
  predicate SideWithin(view: View, gap: int, want: Box, got: Box, s: Side, offers: set<int>, reach: int) {
    && Abs(MovingEdge(got, s) - MovingEdge(want, s)) <= reach
    && (MovingEdge(got, s) != MovingEdge(want, s) ==> EffectiveEdge(view, gap, got, s) in offers)
  }

  /** A request as the pointer makes it: it starts from the actual geometry and changes it at the dragged sides. */
  predicate Requested(current: Box, want: Box, sides: set<Side>) {
    && (Left !in sides ==> want.x == current.x)
    && (Top !in sides ==> want.y == current.y)
    && (!(Left in sides || Right in sides) ==> want.width == current.width)
    && (!(Top in sides || Bottom in sides) ==> want.height == current.height)
  }

  /**
   The sides that are not dragged: the near ones stay, and so do the far ones, or if the near one is dragged
   they are where the request or the actual geometry has them.
   */
  predicate OthersStay(current: Box, want: Box, got: Box, sides: set<Side>) {
    && (if Left in sides then got.Right() == want.Right() || got.Right() == current.Right() else got.x == current.x)
    && (if Top in sides then got.Bottom() == want.Bottom() || got.Bottom() == current.Bottom() else got.y == current.y)
    && (!(Left in sides || Right in sides) ==> got.width == current.width)
    && (!(Top in sides || Bottom in sides) ==> got.height == current.height)
  }

  /** The side that the source moves along an axis: left wins over right, top over bottom. */
  predicate Moves(sides: set<Side>, s: Side) {
    s in sides && (s == Right ==> Left !in sides) && (s == Bottom ==> Top !in sides)
  }

  /** What holds a dragged side between two boxes; the shift leads from the decorated to the bare edge. */
  function Dragged(view: View, gap: int, origin: Box, want: Box, bs: seq<Box>, rs: seq<Region>, screen: int, window: int,
                   s: Side): Resistance.Motion
  {
    Resistance.MotionOf(view, gap, origin, want, bs, rs, screen, window, s, -EdgeShift(view.margin, gap, s))
  }

  lemma AdjustedHeld(view: View, gap: int, want: Box, edges: Border, sides: set<Side>, s: Side, m: Resistance.Motion,
                     traverse: Resistance.Traverse)
    requires Requested(view.current, want, sides) && Moves(sides, s)
    requires m.shift == -EdgeShift(view.margin, gap, s)
    requires Resistance.MotionChosen(Get(edges, s), m, traverse)
    ensures SideHeld(m, traverse, want, AdjustResize(want, edges, sides, view.current, view.margin, gap), s)
  {
    AdjustedSide(view, gap, want, edges, sides, s);
    if Bounded(Get(edges, s)) {
      assert Resistance.Stops(m, traverse, Get(edges, s) + m.shift);
    }
  }

  lemma AdjustedSide(view: View, gap: int, want: Box, edges: Border, sides: set<Side>, s: Side)
    requires Requested(view.current, want, sides) && Moves(sides, s)
    ensures MovingEdge(AdjustResize(want, edges, sides, view.current, view.margin, gap), s)
         == if Bounded(Get(edges, s)) then Get(edges, s) - EdgeShift(view.margin, gap, s) else MovingEdge(want, s)
  {
  }

  lemma HeldWithin(view: View, gap: int, want: Box, got: Box, s: Side, m: Resistance.Motion, traverse: Resistance.Traverse,
                   offers: set<int>, reach: nat)
    requires SideHeld(m, traverse, want, got, s) && Resistance.BoundedBy(m, offers, reach)
    requires m.shift == -EdgeShift(view.margin, gap, s) && m.to.offset + m.shift == MovingEdge(want, s)
    ensures SideWithin(view, gap, want, got, s, offers, reach)
  {
    if Resistance.Stops(m, traverse, MovingEdge(got, s)) {
      Resistance.HeldNear(m, traverse, MovingEdge(got, s), reach);
    }
  }

  lemma AdjustedStays(view: View, gap: int, want: Box, edges: Border, sides: set<Side>)
    requires Requested(view.current, want, sides)
    ensures OthersStay(view.current, want, AdjustResize(want, edges, sides, view.current, view.margin, gap), sides)
  {
  }

  /** resistance_resize_apply */
  method ResizeApply(view: View, snap: LastSnapHit, views: seq<View>, outputs: seq<Output>, workspace: nat, gap: int,
                     screen: int, window: int, traverse: Resistance.Traverse, sides: set<Side>, want: Box)
    returns (got: Box)
    requires !view.shaded && Exact(view, gap, want) && Requested(view.current, want, sides)
    requires var origin := Effective(snap.hit, view.id, sides, view.pending, view.current);
             Exact(view, gap, origin) && IntBoxes(NearOutputs(outputs, |outputs|, origin, want, None))
    requires -INT_MAX <= screen <= INT_MAX && -INT_MAX <= window <= INT_MAX
    requires IntRegions(Neighbors(views, |views|, view, workspace, None, true))
    modifies snap
    ensures var origin := Effective(old(snap.hit), view.id, sides, view.pending, view.current);
            var bs, rs := NearOutputs(outputs, |outputs|, origin, want, None),
                          Neighbors(views, |views|, view, workspace, None, true);
            forall s :: Moves(sides, s) ==>
              && SideHeld(Dragged(view, gap, origin, want, bs, rs, screen, window, s), traverse, want, got, s)
              && SideWithin(view, gap, want, got, s, Resistance.Offers(bs, rs, screen, window, s), Resistance.Reach(screen, window))
    ensures OthersStay(view.current, want, got, sides)
    ensures !view.output.usable ==> got == want
    ensures snap.hit == Recorded(view.id, sides, got)
  {
    var origin := Effective(snap.hit, view.id, sides, view.pending, view.current);
    EffectiveEdges(view, gap, want, Left);
    EffectiveEdges(view, gap, origin, Left);
    var edges := Resistance.FindEdges(view, views, outputs, workspace, gap, screen, window, traverse, origin, want);
    got := AdjustResize(want, edges, sides, view.current, view.margin, gap);
    AllSidesHeld(view, gap, origin, want, edges, sides, NearOutputs(outputs, |outputs|, origin, want, None),
                 Neighbors(views, |views|, view, workspace, None, true), screen, window, traverse);
    AdjustedStays(view, gap, want, edges, sides);
    snap.Set(view.id, sides, got);
  }

  lemma AllSidesHeld(view: View, gap: int, origin: Box, want: Box, edges: Border, sides: set<Side>, bs: seq<Box>, rs: seq<Region>,
                     screen: int, window: int, traverse: Resistance.Traverse)
    requires !view.shaded && Exact(view, gap, want) && Requested(view.current, want, sides)
    requires forall s, shift :: Resistance.SideChosen(edges, Resistance.MotionOf(view, gap, origin, want, bs, rs, screen, window, s, shift),
                                                      traverse, s)
    ensures var got := AdjustResize(want, edges, sides, view.current, view.margin, gap);
            forall s :: Moves(sides, s) ==>
              && SideHeld(Dragged(view, gap, origin, want, bs, rs, screen, window, s), traverse, want, got, s)
              && SideWithin(view, gap, want, got, s, Resistance.Offers(bs, rs, screen, window, s), Resistance.Reach(screen, window))
  {
    var got := AdjustResize(want, edges, sides, view.current, view.margin, gap);
    forall s | Moves(sides, s)
      ensures SideHeld(Dragged(view, gap, origin, want, bs, rs, screen, window, s), traverse, want, got, s)
      ensures SideWithin(view, gap, want, got, s, Resistance.Offers(bs, rs, screen, window, s), Resistance.Reach(screen, window))
    {
      var m := Dragged(view, gap, origin, want, bs, rs, screen, window, s);
      EffectiveEdges(view, gap, want, s);
      assert Resistance.SideChosen(edges, m, traverse, s);
      AdjustedHeld(view, gap, want, edges, sides, s, m, traverse);
      Resistance.LinesWithin(view, gap, origin, want, bs, rs, screen, window, s, -EdgeShift(view.margin, gap, s));
      HeldWithin(view, gap, want, got, s, m, traverse, Resistance.Offers(bs, rs, screen, window, s), Resistance.Reach(screen, window));
    }
  }
}
