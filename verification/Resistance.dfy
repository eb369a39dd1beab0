/** Edge resistance and attraction for interactive moves (src/resistance.c). */
module Resistance {
  import opened Options
  import opened Geometry
  import opened Edges

  /** edges_traverse_edge; its floating-point interpolation is an arbitrary answer here. */
  type Traverse = (Edge, Edge, Edge) -> bool

  /** check_edge of src/resistance.c */
  function ResistCheck(next: int, current: Edge, target: Edge, oppose: Edge, tolerance: int, lesser: bool, traverse: Traverse): int {
    var cur, tgt, opp := current.offset, target.offset, oppose.offset;
    var decreasing := tgt < cur;
    if cur == tgt then next
    else if tolerance >= 0 && lesser != decreasing then next
    else
      var valid :=
        if decreasing then
          var lo, hi := ClippedSub(opp, Abs(tolerance)), ClippedSub(opp, Min(tolerance, 0));
          tgt >= lo && tgt < hi && cur >= opp
        else
          var lo, hi := ClippedAdd(opp, Min(tolerance, 0)), ClippedAdd(opp, Abs(tolerance));
          tgt > lo && tgt <= hi && cur <= opp;
      if valid && traverse(current, target, oppose) then EdgeGetBest(next, opp, decreasing) else next
  }

  function CheckWith(tolerance: int, traverse: Traverse): Validator {
    (next: int, current: Edge, target: Edge, oppose: Edge, align: Edge, lesser: bool) =>
      ResistCheck(next, current, target, oppose, tolerance, lesser, traverse)
  }

  // ---- what holds a moving side ----

  /** The side s of a border as a line, with its extent along the other axis. */
  function SideLine(b: Border, s: Side): Edge {
    match s
    case Left => Edge(b.left, b.top, b.bottom)
    case Right => Edge(b.right, b.top, b.bottom)
    case Top => Edge(b.top, b.left, b.right)
    case Bottom => Edge(b.bottom, b.left, b.right)
  }

  /** A line that is in the way, and the strength with which it resists or, if negative, attracts. */
  datatype Obstacle = Obstacle(edge: Edge, strength: int)

  /** A position that is d past a line is in its zone; an attracting line has one on both sides. */
  predicate InZone(d: int, strength: int) {
    if strength < 0 then strength < d <= -strength else 0 < d <= strength
  }

  /**
   * The obstacle holds a side on its way from `current` to `target`: the side
   * leads the motion or is attracted, starts at the line or before it, would end
   * in its zone, and crosses it.
   */
  predicate Holds(o: Obstacle, current: Edge, target: Edge, lesser: bool, traverse: Traverse) {
    var from, to, p := current.offset, target.offset, o.edge.offset;
    && Bounded(p) && from != to
    && (lesser == (to < from) || o.strength < 0)
    && (if to < from then p <= from && InZone(p - to, o.strength) else from <= p && InZone(to - p, o.strength))
    && traverse(current, target, o.edge)
  }

  /** Of the obstacles that hold the side, r is the one nearest to the start; it is a sentinel if none does. */
  ghost predicate Chosen(r: int, os: set<Obstacle>, current: Edge, target: Edge, lesser: bool, traverse: Traverse) {
    && IsInt(r)
    && if Bounded(r) then
         && (exists o <- os :: o.edge.offset == r && Holds(o, current, target, lesser, traverse))
         && forall o <- os :: Holds(o, current, target, lesser, traverse) ==> Abs(r - current.offset) <= Abs(o.edge.offset - current.offset)
       else forall o <- os :: !Holds(o, current, target, lesser, traverse)
  }

  predicate Strength(i: int) {
    -INT_MAX <= i <= INT_MAX
  }

  /** The conditions of the check, without saturation. */
  lemma CheckTakesIff(next: int, current: Edge, target: Edge, oppose: Edge, tolerance: int, lesser: bool, traverse: Traverse)
    requires Bounded(current.offset) && Bounded(target.offset) && IsInt(oppose.offset) && Strength(tolerance)
    ensures ResistCheck(next, current, target, oppose, tolerance, lesser, traverse) ==
            if Holds(Obstacle(oppose, tolerance), current, target, lesser, traverse) then
              EdgeGetBest(next, oppose.offset, target.offset < current.offset)
            else next
  {
  }

  /** Checking one more line keeps the choice right. */
  lemma CheckChooses(next: int, current: Edge, target: Edge, oppose: Edge, tolerance: int, lesser: bool, traverse: Traverse,
                     os: set<Obstacle>)
    requires Bounded(current.offset) && Bounded(target.offset) && IsInt(oppose.offset) && Strength(tolerance)
    requires Chosen(next, os, current, target, lesser, traverse)
    ensures Chosen(ResistCheck(next, current, target, oppose, tolerance, lesser, traverse), os + {Obstacle(oppose, tolerance)},
                   current, target, lesser, traverse)
  {
    CheckTakesIff(next, current, target, oppose, tolerance, lesser, traverse);
    var o, r := Obstacle(oppose, tolerance), ResistCheck(next, current, target, oppose, tolerance, lesser, traverse);
    if Bounded(r) {
      if r == oppose.offset && Holds(o, current, target, lesser, traverse) {
        assert o in os + {o};
      } else {
        var q :| q in os && q.edge.offset == r && Holds(q, current, target, lesser, traverse);
        assert q in os + {o};
      }
    }
  }

  // ---- the lines that are offered ----

  /** The edges of outputs hold the same side of the view back. */
  function OutputLines(bs: seq<Box>, s: Side, strength: int): set<Obstacle> {
    set b | b in bs :: Obstacle(SideLine(BoxBorder(b), s), strength)
  }

  /** The visible edges of windows oppose the side of the view. */
  function RegionLines(rs: seq<Region>, s: Side, strength: int): set<Obstacle> {
    set r | r in rs && Invert(s) in r.visible :: Obstacle(SideLine(r.edges, Invert(s)), strength)
  }

  /** Each only if its strength is not zero. */
  function Lines(bs: seq<Box>, rs: seq<Region>, screen: int, window: int, s: Side): set<Obstacle> {
    (if screen != 0 then OutputLines(bs, s, screen) else {}) + (if window != 0 then RegionLines(rs, s, window) else {})
  }

  lemma OutputLinesLast(bs: seq<Box>, s: Side, strength: int)
    requires bs != []
    ensures OutputLines(bs, s, strength) == OutputLines(bs[..|bs| - 1], s, strength) + OutputLines([bs[|bs| - 1]], s, strength)
  {
    assert bs == bs[..|bs| - 1] + [bs[|bs| - 1]];
  }

  lemma RegionLinesLast(rs: seq<Region>, s: Side, strength: int, os: set<Obstacle>)
    requires rs != []
    ensures os + RegionLines(rs, s, strength)
         == os + RegionLines(rs[..|rs| - 1], s, strength) + RegionLines([rs[|rs| - 1]], s, strength)
  {
    assert rs == rs[..|rs| - 1] + [rs[|rs| - 1]];
  }

  lemma BuiltEdge(b: Border, s: Side)
    requires IntBorder(b)
    ensures BuildEdge(b, s, 0) == SideLine(b, s) && IsInt(SideLine(b, s).offset)
  {
  }

  lemma OutputSide(best: Border, from: Border, to: Border, usable: Box, v: Validator, s: Side)
    requires IntBorder(from) && IntBorder(to) && IntBorder(BoxBorder(usable))
    ensures Get(ValidateOutputEdges(best, from, to, usable, v), s) == ValidateOutputEdge(Get(best, s), from, to, BoxBorder(usable), v, s)
  {
  }

  /** Side s of the view is searched for: its two positions are proper coordinates. */
  predicate Searched(from: Border, to: Border, s: Side) {
    IntBorder(from) && IntBorder(to) && Bounded(Get(from, s)) && Bounded(Get(to, s))
  }

  lemma {:induction false} OutputsChoose(best: Border, from: Border, to: Border, bs: seq<Box>, tolerance: int, traverse: Traverse, s: Side)
    requires Searched(from, to, s) && IntBoxes(bs) && Strength(tolerance)
    requires IsInt(Get(best, s)) && !Bounded(Get(best, s))
    ensures Chosen(Get(FoldOutputs(best, from, to, bs, CheckWith(tolerance, traverse)), s), OutputLines(bs, s, tolerance),
                   SideLine(from, s), SideLine(to, s), IsLesser(s), traverse)
  {
    if bs != [] {
      var n := |bs| - 1;
      OutputsChoose(best, from, to, bs[..n], tolerance, traverse, s);
      OutputChooses(FoldOutputs(best, from, to, bs[..n], CheckWith(tolerance, traverse)), from, to, bs[n], tolerance, traverse, s,
                    OutputLines(bs[..n], s, tolerance));
      OutputLinesLast(bs, s, tolerance);
    }
  }

  /** One output. */
  lemma OutputChooses(before: Border, from: Border, to: Border, b: Box, tolerance: int, traverse: Traverse, s: Side, os: set<Obstacle>)
    requires Searched(from, to, s) && IntBorder(BoxBorder(b)) && Strength(tolerance)
    requires Chosen(Get(before, s), os, SideLine(from, s), SideLine(to, s), IsLesser(s), traverse)
    ensures Chosen(Get(ValidateOutputEdges(before, from, to, b, CheckWith(tolerance, traverse)), s),
                   os + OutputLines([b], s, tolerance), SideLine(from, s), SideLine(to, s), IsLesser(s), traverse)
  {
    OutputSide(before, from, to, b, CheckWith(tolerance, traverse), s);
    BuiltEdge(from, s);
    BuiltEdge(to, s);
    BuiltEdge(BoxBorder(b), s);
    CheckChooses(Get(before, s), SideLine(from, s), SideLine(to, s), SideLine(BoxBorder(b), s), tolerance, IsLesser(s), traverse, os);
    assert OutputLines([b], s, tolerance) == {Obstacle(SideLine(BoxBorder(b), s), tolerance)};
  }

  lemma {:induction false} RegionsChoose(best: int, from: Border, to: Border, rs: seq<Region>, gap: int, tolerance: int, traverse: Traverse,
                                         s: Side, os: set<Obstacle>)
    requires Searched(from, to, s) && IntRegions(rs) && IsInt(gap) && Strength(tolerance)
    requires Chosen(best, os, SideLine(from, s), SideLine(to, s), IsLesser(s), traverse)
    ensures Chosen(FoldSide(best, from, to, rs, gap, CheckWith(tolerance, traverse), s), os + RegionLines(rs, s, tolerance),
                   SideLine(from, s), SideLine(to, s), IsLesser(s), traverse)
  {
    if rs == [] {
      assert os + RegionLines(rs, s, tolerance) == os;
    } else {
      var n := |rs| - 1;
      RegionsChoose(best, from, to, rs[..n], gap, tolerance, traverse, s, os);
      RegionChooses(FoldSide(best, from, to, rs[..n], gap, CheckWith(tolerance, traverse), s), from, to, rs[n], gap, tolerance,
                    traverse, s, os + RegionLines(rs[..n], s, tolerance));
      RegionLinesLast(rs, s, tolerance, os);
    }
  }

  /** One window; a hidden side is no obstacle. */
  lemma RegionChooses(before: int, from: Border, to: Border, r: Region, gap: int, tolerance: int, traverse: Traverse, s: Side,
                      os: set<Obstacle>)
    requires Searched(from, to, s) && IntBorder(r.edges) && IsInt(gap) && Strength(tolerance)
    requires Chosen(before, os, SideLine(from, s), SideLine(to, s), IsLesser(s), traverse)
    ensures Chosen(ValidateRegionEdge(before, from, to, r.edges, r.visible, gap, CheckWith(tolerance, traverse), s),
                   os + RegionLines([r], s, tolerance), SideLine(from, s), SideLine(to, s), IsLesser(s), traverse)
  {
    BuiltEdge(from, s);
    BuiltEdge(to, s);
    BuiltEdge(r.edges, Invert(s));
    var opposing := BuildVisibleEdge(r.edges, Invert(s), 0, r.visible);
    if Invert(s) in r.visible {
      CheckChooses(before, SideLine(from, s), SideLine(to, s), opposing, tolerance, IsLesser(s), traverse, os);
      assert RegionLines([r], s, tolerance) == {Obstacle(opposing, tolerance)};
    } else {
      CheckTakesIff(before, SideLine(from, s), SideLine(to, s), opposing, tolerance, IsLesser(s), traverse);
      assert os + RegionLines([r], s, tolerance) == os;
    }
  }

  // ---- one coordinate ----

  /** A view, a configuration and a destination for which the arithmetic is exact. */
  predicate Exact(view: View, gap: int, x: int, y: int) {
    SmallBox(view.current) && SmallBorder(view.margin) && Small(gap) && Small(x) && Small(y)
  }

  function Near(view: View, gap: int, horizontal: bool): int {
    NearShift(view.margin, gap, horizontal)
  }

  function Far(view: View, gap: int, horizontal: bool): int {
    FarShift(view.margin, gap, horizontal, view.current.width, view.EffectiveHeight(false))
  }

  function Target(view: View, x: int, y: int): Box {
    Box(x, y, view.current.width, view.current.height)
  }

  /** A moving side with its obstacles; the view's coordinate is `shift` more than that of the side. */
  datatype Motion = Motion(obstacles: set<Obstacle>, from: Edge, to: Edge, lesser: bool, shift: int)

  /** An obstacle holds the side where the coordinate is p. */
  predicate Stops(m: Motion, traverse: Traverse, p: int) {
    exists o <- m.obstacles :: Holds(o, m.from, m.to, m.lesser, traverse) && o.edge.offset + m.shift == p
  }

  /** And p is a proper coordinate. */
  predicate HoldsAt(m: Motion, traverse: Traverse, p: int) {
    Bounded(p) && Stops(m, traverse, p)
  }

  predicate EitherHolds(a: Motion, b: Motion, traverse: Traverse, p: int) {
    HoldsAt(a, traverse, p) || HoldsAt(b, traverse, p)
  }

  /** A coordinate that is asked to go from `pos` to `want` ends where it is held first, or at `want` if it is not held. */
  ghost predicate HeldBack(a: Motion, b: Motion, traverse: Traverse, pos: int, want: int, got: int) {
    if EitherHolds(a, b, traverse, got) then forall p :: EitherHolds(a, b, traverse, p) ==> Abs(got - pos) <= Abs(p - pos)
    else got == want && forall p :: !EitherHolds(a, b, traverse, p)
  }

  /** The two sides that move along one axis. */
  predicate Sides(a: Motion, b: Motion, pos: int, want: int) {
    && a.lesser && a.from.offset + a.shift == pos && a.to.offset + a.shift == want
    && !b.lesser && b.from.offset + b.shift == pos && b.to.offset + b.shift == want
  }

  /** Side m is held at c first, if c is a proper coordinate, and else nowhere. */
  ghost predicate First(m: Motion, traverse: Traverse, c: int) {
    if Bounded(c) then HoldsAt(m, traverse, c) && forall p :: HoldsAt(m, traverse, p) ==> Abs(c - m.from.offset - m.shift) <= Abs(p - m.from.offset - m.shift)
    else forall p :: !HoldsAt(m, traverse, p)
  }

  /** Where side m would be put by an edge at r. */
  function PutAt(r: int, shift: int): int {
    if Bounded(r) then r + shift else r
  }

  lemma ChosenIsFirst(m: Motion, traverse: Traverse, r: int)
    requires Chosen(r, m.obstacles, m.from, m.to, m.lesser, traverse)
    requires Abs(m.from.offset + m.shift) < 0x1000_0000
    ensures First(m, traverse, PutAt(r, m.shift))
  {
    var c := PutAt(r, m.shift);
    if Bounded(r) && !Bounded(c) {
      forall p ensures !HoldsAt(m, traverse, p) {
        if HoldsAt(m, traverse, p) {
          var o :| o in m.obstacles && Holds(o, m.from, m.to, m.lesser, traverse) && o.edge.offset + m.shift == p;
          SameWay(m, traverse, p);
        }
      }
    }
  }

  /** A side is held on its way. */
  lemma SameWay(m: Motion, traverse: Traverse, p: int)
    requires HoldsAt(m, traverse, p)
    ensures m.from.offset != m.to.offset && if m.to.offset < m.from.offset then p <= m.from.offset + m.shift else p >= m.from.offset + m.shift
  {
  }

  lemma BetterCandidate(pos: int, want: int, r1: int, near: int, r2: int, far: int)
    requires IsInt(r1) && IsInt(near) && IsInt(r2) && IsInt(far) && pos != want
    requires Bounded(PutAt(r1, near)) ==> if want < pos then PutAt(r1, near) <= pos else PutAt(r1, near) >= pos
    requires Bounded(PutAt(r2, -far)) ==> if want < pos then PutAt(r2, -far) <= pos else PutAt(r2, -far) >= pos
    ensures var c1, c2, got := PutAt(r1, near), PutAt(r2, -far), AdjustMoveAxis(pos, want, r1, near, r2, far);
            && (!Bounded(c1) && !Bounded(c2) ==> got == want)
            && (Bounded(c1) || Bounded(c2) ==> (got == c1 && Bounded(c1)) || (got == c2 && Bounded(c2)))
            && (Bounded(c1) ==> Abs(got - pos) <= Abs(c1 - pos))
            && (Bounded(c2) ==> Abs(got - pos) <= Abs(c2 - pos))
  {
  }

  lemma FirstOfBoth(a: Motion, b: Motion, traverse: Traverse, pos: int, want: int, c1: int, c2: int, got: int)
    requires Sides(a, b, pos, want) && First(a, traverse, c1) && First(b, traverse, c2)
    requires !Bounded(c1) && !Bounded(c2) ==> got == want
    requires Bounded(c1) || Bounded(c2) ==> (got == c1 && Bounded(c1)) || (got == c2 && Bounded(c2))
    requires Bounded(c1) ==> Abs(got - pos) <= Abs(c1 - pos)
    requires Bounded(c2) ==> Abs(got - pos) <= Abs(c2 - pos)
    ensures HeldBack(a, b, traverse, pos, want, got)
  {
    forall p | EitherHolds(a, b, traverse, p) ensures (Bounded(c1) || Bounded(c2)) && Abs(got - pos) <= Abs(p - pos) {
      if HoldsAt(a, traverse, p) {
        assert Abs(c1 - pos) <= Abs(p - pos);
      } else {
        assert Abs(c2 - pos) <= Abs(p - pos);
      }
    }
  }

  lemma AxisHeld(a: Motion, b: Motion, traverse: Traverse, pos: int, want: int, r1: int, near: int, r2: int, far: int)
    requires Sides(a, b, pos, want) && Small(pos) && IsInt(near) && IsInt(far) && a.shift == near && b.shift == -far
    requires Chosen(r1, a.obstacles, a.from, a.to, a.lesser, traverse) && Chosen(r2, b.obstacles, b.from, b.to, b.lesser, traverse)
    ensures HeldBack(a, b, traverse, pos, want, AdjustMoveAxis(pos, want, r1, near, r2, far))
  {
    var c1, c2 := PutAt(r1, near), PutAt(r2, -far);
    ChosenIsFirst(a, traverse, r1);
    ChosenIsFirst(b, traverse, r2);
    if Bounded(c1) {
      SameWay(a, traverse, c1);
    }
    if Bounded(c2) {
      SameWay(b, traverse, c2);
    }
    if pos != want {
      BetterCandidate(pos, want, r1, near, r2, far);
    }
    FirstOfBoth(a, b, traverse, pos, want, c1, c2, AdjustMoveAxis(pos, want, r1, near, r2, far));
  }

  /** The coordinate is changed exactly if the side is held, and not first of all at the very place it is asked to go to. */
  lemma HeldIff(a: Motion, b: Motion, traverse: Traverse, pos: int, want: int, got: int)
    requires Sides(a, b, pos, want) && HeldBack(a, b, traverse, pos, want, got)
    ensures got != want <==>
              exists p :: EitherHolds(a, b, traverse, p) && p != want
                          && (EitherHolds(a, b, traverse, want) ==> Abs(p - pos) < Abs(want - pos))
  {
  }

  // ---- the bound ----

  /** The positions of the lines that may hold back side s. */
  function Offers(bs: seq<Box>, rs: seq<Region>, screen: int, window: int, s: Side): set<int> {
    set o | o in Lines(bs, rs, screen, window, s) :: o.edge.offset
  }

  function Reach(screen: int, window: int): nat {
    Max(Abs(screen), Abs(window))
  }

  /** What a move may do to one coordinate. */
  predicate Within(pos: int, want: int, got: int, near: int, far: int, lesser: set<int>, greater: set<int>, reach: int) {
    && Abs(got - want) <= reach
    && (pos == want ==> got == want)
    && (got != want ==> got - near in lesser || got + far in greater)
  }

  /** The side is held where a line is, no further from the requested place than its strength. */
  lemma HeldNear(m: Motion, traverse: Traverse, p: int, reach: int)
    requires Stops(m, traverse, p) && forall o <- m.obstacles :: Abs(o.strength) <= reach
    ensures Abs(p - (m.to.offset + m.shift)) <= reach && exists o <- m.obstacles :: o.edge.offset == p - m.shift
  {
  }

  predicate BoundedBy(m: Motion, offers: set<int>, reach: int) {
    forall o <- m.obstacles :: Abs(o.strength) <= reach && o.edge.offset in offers
  }

  lemma HeldWithin(a: Motion, b: Motion, traverse: Traverse, pos: int, want: int, got: int, near: int, far: int,
                   lesser: set<int>, greater: set<int>, reach: nat)
    requires Sides(a, b, pos, want) && HeldBack(a, b, traverse, pos, want, got) && a.shift == near && b.shift == -far
    requires BoundedBy(a, lesser, reach) && BoundedBy(b, greater, reach)
    ensures Within(pos, want, got, near, far, lesser, greater, reach)
  {
    if HoldsAt(a, traverse, got) {
      HeldNear(a, traverse, got, reach);
    } else if HoldsAt(b, traverse, got) {
      HeldNear(b, traverse, got, reach);
    }
  }

  // ---- resistance_move_apply ----

  /** The four sides of the decorated view, a gap outside. */
  function EdgesAt(view: View, gap: int, b: Box): Border {
    EdgesForTarget(view.margin, gap, view.shaded, b)
  }

  predicate Proper(b: Border) {
    Bounded(b.top) && Bounded(b.right) && Bounded(b.bottom) && Bounded(b.left)
  }

  function Coord(b: Box, horizontal: bool): int {
    if horizontal then b.x else b.y
  }

  /** What holds side s of the view on its way; nothing is searched for a view without a usable output. */
  function MotionOf(view: View, gap: int, origin: Box, target: Box, bs: seq<Box>, rs: seq<Region>, screen: int, window: int,
                    s: Side, shift: int): Motion
  {
    Motion(if view.output.usable then Lines(bs, rs, screen, window, s) else {},
           SideLine(EdgesAt(view, gap, origin), s), SideLine(EdgesAt(view, gap, target), s), IsLesser(s), shift)
  }

  lemma LinesWithin(view: View, gap: int, origin: Box, target: Box, bs: seq<Box>, rs: seq<Region>, screen: int, window: int, s: Side, shift: int)
    ensures BoundedBy(MotionOf(view, gap, origin, target, bs, rs, screen, window, s, shift), Offers(bs, rs, screen, window, s),
                      Reach(screen, window))
  {
  }

  ghost predicate MotionChosen(r: int, m: Motion, traverse: Traverse) {
    Chosen(r, m.obstacles, m.from, m.to, m.lesser, traverse)
  }

  /** On side s the result of both searches is the right one. */
  ghost predicate SideChosen(edges: Border, m: Motion, traverse: Traverse, s: Side) {
    MotionChosen(Get(edges, s), m, traverse)
  }

  lemma FoldsChoose(outputEdges: Border, edges: Border, from: Border, to: Border, bs: seq<Box>, rs: seq<Region>,
                    gap: int, screen: int, window: int, traverse: Traverse, s: Side)
    requires Proper(from) && Proper(to) && IntBoxes(bs) && IntRegions(rs) && IsInt(gap)
    requires Strength(screen) && Strength(window)
    requires outputEdges == if screen != 0 then FoldOutputs(UNBOUNDED, from, to, bs, CheckWith(screen, traverse)) else UNBOUNDED
    requires edges == if window != 0 then FoldRegions(outputEdges, from, to, rs, gap, CheckWith(window, traverse)) else outputEdges
    ensures Chosen(Get(edges, s), Lines(bs, rs, screen, window, s), SideLine(from, s), SideLine(to, s), IsLesser(s), traverse)
  {
    var os := if screen != 0 then OutputLines(bs, s, screen) else {};
    OutputsChoose(UNBOUNDED, from, to, bs, screen, traverse, s);
    assert Chosen(Get(outputEdges, s), os, SideLine(from, s), SideLine(to, s), IsLesser(s), traverse);
    if window != 0 {
      RegionsChoose(Get(outputEdges, s), from, to, rs, gap, window, traverse, s, os);
      FoldBySide(outputEdges, from, to, rs, gap, CheckWith(window, traverse), s);
    } else {
      assert Lines(bs, rs, screen, window, s) == os;
    }
  }

  /** The two searches around a motion from `origin` to `target`. */
  method FindEdges(view: View, views: seq<View>, outputs: seq<Output>, workspace: nat, gap: int,
                   screen: int, window: int, traverse: Traverse, origin: Box, target: Box)
    returns (edges: Border)
    requires IsInt(gap) && Proper(EdgesAt(view, gap, origin)) && Proper(EdgesAt(view, gap, target))
    requires Strength(screen) && Strength(window)
    requires IntRegions(Neighbors(views, |views|, view, workspace, None, true))
    requires IntBoxes(NearOutputs(outputs, |outputs|, origin, target, None))
    ensures forall s, shift :: SideChosen(edges, MotionOf(view, gap, origin, target,
                                                         NearOutputs(outputs, |outputs|, origin, target, None),
                                                         Neighbors(views, |views|, view, workspace, None, true),
                                                         screen, window, s, shift), traverse, s)
    ensures !view.output.usable ==> edges == UNBOUNDED
  {
    edges := UNBOUNDED;
    if screen != 0 {
      edges := FindOutputs(edges, outputs, view, origin, target, None, gap, CheckWith(screen, traverse));
    }
    if window != 0 {
      edges := FindNeighbors(edges, views, view, workspace, origin, target, None, gap, CheckWith(window, traverse), true);
    }
    AllSidesChosen(view, edges, origin, target, NearOutputs(outputs, |outputs|, origin, target, None),
                   Neighbors(views, |views|, view, workspace, None, true), gap, screen, window, traverse);
  }

  lemma AllSidesChosen(view: View, edges: Border, origin: Box, target: Box, bs: seq<Box>, rs: seq<Region>,
                       gap: int, screen: int, window: int, traverse: Traverse)
    requires IsInt(gap) && Proper(EdgesAt(view, gap, origin)) && Proper(EdgesAt(view, gap, target))
    requires Strength(screen) && Strength(window) && IntBoxes(bs) && IntRegions(rs)
    requires !view.output.usable ==> edges == UNBOUNDED
    requires view.output.usable ==>
               var from, to := EdgesAt(view, gap, origin), EdgesAt(view, gap, target);
               var outputEdges := if screen != 0 then FoldOutputs(UNBOUNDED, from, to, bs, CheckWith(screen, traverse)) else UNBOUNDED;
               edges == if window != 0 then FoldRegions(outputEdges, from, to, rs, gap, CheckWith(window, traverse)) else outputEdges
    ensures forall s, shift :: SideChosen(edges, MotionOf(view, gap, origin, target, bs, rs, screen, window, s, shift), traverse, s)
  {
    var from, to := EdgesAt(view, gap, origin), EdgesAt(view, gap, target);
    forall s, shift
      ensures SideChosen(edges, MotionOf(view, gap, origin, target, bs, rs, screen, window, s, shift), traverse, s)
    {
      if view.output.usable {
        var outputEdges := if screen != 0 then FoldOutputs(UNBOUNDED, from, to, bs, CheckWith(screen, traverse)) else UNBOUNDED;
        FoldsChoose(outputEdges, edges, from, to, bs, rs, gap, screen, window, traverse, s);
      }
    }
  }

  /** The two sides along one axis. */
  function NearMotion(view: View, gap: int, bs: seq<Box>, rs: seq<Region>, screen: int, window: int, x: int, y: int,
                      horizontal: bool): Motion
  {
    MotionOf(view, gap, view.current, Target(view, x, y), bs, rs, screen, window, LesserSide(horizontal),
             Near(view, gap, horizontal))
  }

  function FarMotion(view: View, gap: int, bs: seq<Box>, rs: seq<Region>, screen: int, window: int, x: int, y: int,
                     horizontal: bool): Motion
  {
    MotionOf(view, gap, view.current, Target(view, x, y), bs, rs, screen, window, GreaterSide(horizontal),
             -Far(view, gap, horizontal))
  }

  /** One coordinate of the result is held back by the first obstacle. */
  ghost predicate CoordHeldBack(view: View, gap: int, bs: seq<Box>, rs: seq<Region>, screen: int, window: int, traverse: Traverse,
                                x: int, y: int, horizontal: bool, got: int)
  {
    HeldBack(NearMotion(view, gap, bs, rs, screen, window, x, y, horizontal),
             FarMotion(view, gap, bs, rs, screen, window, x, y, horizontal), traverse,
             Coord(view.current, horizontal), Coord(Target(view, x, y), horizontal), got)
  }

  /** It is within the strength of what was asked for, at a line that was offered. */
  predicate CoordWithin(view: View, gap: int, bs: seq<Box>, rs: seq<Region>, screen: int, window: int, x: int, y: int,
                        horizontal: bool, got: int)
  {
    Within(Coord(view.current, horizontal), Coord(Target(view, x, y), horizontal), got,
           Near(view, gap, horizontal), Far(view, gap, horizontal),
           Offers(bs, rs, screen, window, LesserSide(horizontal)), Offers(bs, rs, screen, window, GreaterSide(horizontal)),
           Reach(screen, window))
  }

  lemma SideOffsets(view: View, gap: int, x: int, y: int)
    requires Exact(view, gap, x, y)
    ensures var e := EdgesAt(view, gap, Target(view, x, y));
            && Proper(e)
            && e.left == x - Near(view, gap, true) && e.right == x + Far(view, gap, true)
            && e.top == y - Near(view, gap, false) && e.bottom == y + Far(view, gap, false)
    ensures IsInt(Near(view, gap, true)) && IsInt(Far(view, gap, true)) && IsInt(Near(view, gap, false)) && IsInt(Far(view, gap, false))
  {
  }

  lemma BothSides(view: View, gap: int, bs: seq<Box>, rs: seq<Region>, screen: int, window: int, x: int, y: int, horizontal: bool)
    requires Exact(view, gap, x, y)
    ensures Sides(NearMotion(view, gap, bs, rs, screen, window, x, y, horizontal), FarMotion(view, gap, bs, rs, screen, window, x, y, horizontal),
                  Coord(view.current, horizontal), Coord(Target(view, x, y), horizontal))
    ensures IsInt(Near(view, gap, horizontal)) && IsInt(Far(view, gap, horizontal))
  {
    SideOffsets(view, gap, x, y);
    SideOffsets(view, gap, view.current.x, view.current.y);
    assert Target(view, view.current.x, view.current.y) == view.current;
  }

  lemma CoordIsHeld(view: View, gap: int, bs: seq<Box>, rs: seq<Region>, screen: int, window: int, traverse: Traverse,
                    x: int, y: int, horizontal: bool, r1: int, r2: int)
    requires Exact(view, gap, x, y)
    requires MotionChosen(r1, NearMotion(view, gap, bs, rs, screen, window, x, y, horizontal), traverse)
    requires MotionChosen(r2, FarMotion(view, gap, bs, rs, screen, window, x, y, horizontal), traverse)
    ensures IsInt(Near(view, gap, horizontal)) && IsInt(Far(view, gap, horizontal))
    ensures CoordHeldBack(view, gap, bs, rs, screen, window, traverse, x, y, horizontal,
                      AdjustMoveAxis(Coord(view.current, horizontal), Coord(Target(view, x, y), horizontal),
                                     r1, Near(view, gap, horizontal), r2, Far(view, gap, horizontal)))
  {
    BothSides(view, gap, bs, rs, screen, window, x, y, horizontal);
    AxisHeld(NearMotion(view, gap, bs, rs, screen, window, x, y, horizontal),
             FarMotion(view, gap, bs, rs, screen, window, x, y, horizontal), traverse,
             Coord(view.current, horizontal), Coord(Target(view, x, y), horizontal),
             r1, Near(view, gap, horizontal), r2, Far(view, gap, horizontal));
  }

  lemma CoordIsWithin(view: View, gap: int, bs: seq<Box>, rs: seq<Region>, screen: int, window: int, traverse: Traverse,
                      x: int, y: int, horizontal: bool, got: int)
    requires Exact(view, gap, x, y) && CoordHeldBack(view, gap, bs, rs, screen, window, traverse, x, y, horizontal, got)
    ensures CoordWithin(view, gap, bs, rs, screen, window, x, y, horizontal, got)
  {
    BothSides(view, gap, bs, rs, screen, window, x, y, horizontal);
    LinesWithin(view, gap, view.current, Target(view, x, y), bs, rs, screen, window, LesserSide(horizontal), Near(view, gap, horizontal));
    LinesWithin(view, gap, view.current, Target(view, x, y), bs, rs, screen, window, GreaterSide(horizontal), -Far(view, gap, horizontal));
    HeldWithin(NearMotion(view, gap, bs, rs, screen, window, x, y, horizontal),
               FarMotion(view, gap, bs, rs, screen, window, x, y, horizontal), traverse,
               Coord(view.current, horizontal), Coord(Target(view, x, y), horizontal), got,
               Near(view, gap, horizontal), Far(view, gap, horizontal),
               Offers(bs, rs, screen, window, LesserSide(horizontal)), Offers(bs, rs, screen, window, GreaterSide(horizontal)),
               Reach(screen, window));
  }

  /** resistance_move_apply */
  method MoveApply(view: View, views: seq<View>, outputs: seq<Output>, workspace: nat, gap: int,
                   screen: int, window: int, traverse: Traverse, x: int, y: int)
    returns (x': int, y': int)
    requires Exact(view, gap, x, y) && Strength(screen) && Strength(window)
    requires IntRegions(Neighbors(views, |views|, view, workspace, None, true))
    requires IntBoxes(NearOutputs(outputs, |outputs|, view.current, Target(view, x, y), None))
    ensures var bs, rs := NearOutputs(outputs, |outputs|, view.current, Target(view, x, y), None),
                          Neighbors(views, |views|, view, workspace, None, true);
            && CoordHeldBack(view, gap, bs, rs, screen, window, traverse, x, y, true, x')
            && CoordHeldBack(view, gap, bs, rs, screen, window, traverse, x, y, false, y')
            && CoordWithin(view, gap, bs, rs, screen, window, x, y, true, x')
            && CoordWithin(view, gap, bs, rs, screen, window, x, y, false, y')
    ensures !view.output.usable ==> x' == x && y' == y
  {
    SideOffsets(view, gap, x, y);
    SideOffsets(view, gap, view.current.x, view.current.y);
    assert Target(view, view.current.x, view.current.y) == view.current;
    var edges := FindEdges(view, views, outputs, workspace, gap, screen, window, traverse, view.current, Target(view, x, y));
    ghost var bs, rs := NearOutputs(outputs, |outputs|, view.current, Target(view, x, y), None),
                        Neighbors(views, |views|, view, workspace, None, true);
    CoordsHeld(view, edges, bs, rs, gap, screen, window, traverse, x, y);
    x' := AdjustMoveAxis(view.current.x, x, edges.left, Near(view, gap, true), edges.right, Far(view, gap, true));
    y' := AdjustMoveAxis(view.current.y, y, edges.top, Near(view, gap, false), edges.bottom, Far(view, gap, false));
    CoordIsWithin(view, gap, bs, rs, screen, window, traverse, x, y, true, x');
    CoordIsWithin(view, gap, bs, rs, screen, window, traverse, x, y, false, y');
  }

  lemma CoordsHeld(view: View, edges: Border, bs: seq<Box>, rs: seq<Region>, gap: int, screen: int, window: int, traverse: Traverse,
                   x: int, y: int)
    requires Exact(view, gap, x, y)
    requires forall s, shift :: SideChosen(edges, MotionOf(view, gap, view.current, Target(view, x, y), bs, rs, screen, window, s, shift),
                                           traverse, s)
    ensures IntBorder(edges) && IsInt(Near(view, gap, true)) && IsInt(Far(view, gap, true))
    ensures IsInt(Near(view, gap, false)) && IsInt(Far(view, gap, false))
    ensures CoordHeldBack(view, gap, bs, rs, screen, window, traverse, x, y, true,
                      AdjustMoveAxis(view.current.x, x, edges.left, Near(view, gap, true), edges.right, Far(view, gap, true)))
    ensures CoordHeldBack(view, gap, bs, rs, screen, window, traverse, x, y, false,
                      AdjustMoveAxis(view.current.y, y, edges.top, Near(view, gap, false), edges.bottom, Far(view, gap, false)))
  {
    assert SideChosen(edges, NearMotion(view, gap, bs, rs, screen, window, x, y, true), traverse, Left);
    assert SideChosen(edges, FarMotion(view, gap, bs, rs, screen, window, x, y, true), traverse, Right);
    assert SideChosen(edges, NearMotion(view, gap, bs, rs, screen, window, x, y, false), traverse, Top);
    assert SideChosen(edges, FarMotion(view, gap, bs, rs, screen, window, x, y, false), traverse, Bottom);
    CoordIsHeld(view, gap, bs, rs, screen, window, traverse, x, y, true, edges.left, edges.right);
    CoordIsHeld(view, gap, bs, rs, screen, window, traverse, x, y, false, edges.top, edges.bottom);
  }

  /** A coordinate is changed exactly if an obstacle holds the view elsewhere before one holds it where it is asked to go. */
  lemma MovesShortIff(view: View, gap: int, bs: seq<Box>, rs: seq<Region>, screen: int, window: int, traverse: Traverse,
                      x: int, y: int, horizontal: bool, got: int)
    requires Exact(view, gap, x, y) && CoordHeldBack(view, gap, bs, rs, screen, window, traverse, x, y, horizontal, got)
    ensures var a, b := NearMotion(view, gap, bs, rs, screen, window, x, y, horizontal),
                        FarMotion(view, gap, bs, rs, screen, window, x, y, horizontal);
            var pos, want := Coord(view.current, horizontal), Coord(Target(view, x, y), horizontal);
            got != want <==> exists p :: EitherHolds(a, b, traverse, p) && p != want
                                         && (EitherHolds(a, b, traverse, want) ==> Abs(p - pos) < Abs(want - pos))
  {
    BothSides(view, gap, bs, rs, screen, window, x, y, horizontal);
    HeldIff(NearMotion(view, gap, bs, rs, screen, window, x, y, horizontal),
            FarMotion(view, gap, bs, rs, screen, window, x, y, horizontal), traverse,
            Coord(view.current, horizontal), Coord(Target(view, x, y), horizontal), got);
  }

  /** Without attraction: exactly if any obstacle holds it. */
  lemma ResistsIff(view: View, gap: int, bs: seq<Box>, rs: seq<Region>, screen: int, window: int, traverse: Traverse,
                   x: int, y: int, horizontal: bool, got: int)
    requires Exact(view, gap, x, y) && CoordHeldBack(view, gap, bs, rs, screen, window, traverse, x, y, horizontal, got)
    requires screen >= 0 && window >= 0
    ensures got != Coord(Target(view, x, y), horizontal) <==>
              exists p :: EitherHolds(NearMotion(view, gap, bs, rs, screen, window, x, y, horizontal),
                                      FarMotion(view, gap, bs, rs, screen, window, x, y, horizontal), traverse, p)
  {
    var a, b := NearMotion(view, gap, bs, rs, screen, window, x, y, horizontal),
                FarMotion(view, gap, bs, rs, screen, window, x, y, horizontal);
    BothSides(view, gap, bs, rs, screen, window, x, y, horizontal);
    NotAtGoal(a, traverse);
    NotAtGoal(b, traverse);
  }

  lemma NotAtGoal(m: Motion, traverse: Traverse)
    requires forall o <- m.obstacles :: o.strength >= 0
    ensures !HoldsAt(m, traverse, m.to.offset + m.shift)
  {
  }

  // ---- edges_traverse_edge, over the reals ----

  /** linear_interp */
  function Interpolated(x: int, x1: int, y1: int, x2: int, y2: int): real {
    if y1 == y2 then y2 as real
    else if x1 == x2 then 0.5 * (y1 + y2) as real
    else y1 as real + (x - x1) as real * ((y2 - y1) as real / (x2 - x1) as real)
  }

  function Traverses(current: Edge, target: Edge, obstacle: Edge): bool {
    var lo := Interpolated(obstacle.offset, current.offset, current.min, target.offset, target.min);
    var hi := Interpolated(obstacle.offset, current.offset, current.max, target.offset, target.max);
    !(obstacle.max as real <= lo) && obstacle.min as real < hi
  }

  /** Where a coordinate is at time t, if it moves from a at time 0 to b at time 1. */
  function At(a: int, b: int, t: real): real {
    a as real + t * (b - a) as real
  }

  /** When the moving edge is at the obstacle's position it overlaps the obstacle. */
  ghost predicate Crosses(current: Edge, target: Edge, obstacle: Edge) {
    exists t: real ::
      && At(current.offset, target.offset, t) == obstacle.offset as real
      && At(current.min, target.min, t) < obstacle.max as real && obstacle.min as real < At(current.max, target.max, t)
  }

  lemma InterpolatedAt(x: int, x1: int, y1: int, x2: int, y2: int, t: real)
    requires x1 != x2 && At(x1, x2, t) == x as real
    ensures Interpolated(x, x1, y1, x2, y2) == At(y1, y2, t)
  {
    var run, rise := (x2 - x1) as real, (y2 - y1) as real;
    assert (x - x1) as real == t * run;
    assert t * run * (rise / run) == t * rise by {
      assert run * (rise / run) == rise;
    }
  }

  /** The interpolation decides whether the side crosses the obstacle on its straight way. */
  lemma TraversesIff(current: Edge, target: Edge, obstacle: Edge)
    requires current.offset != target.offset
    ensures Traverses(current, target, obstacle) <==> Crosses(current, target, obstacle)
  {
    var t := (obstacle.offset - current.offset) as real / (target.offset - current.offset) as real;
    assert At(current.offset, target.offset, t) == obstacle.offset as real;
    InterpolatedAt(obstacle.offset, current.offset, current.min, target.offset, target.min, t);
    InterpolatedAt(obstacle.offset, current.offset, current.max, target.offset, target.max, t);
    forall u: real | At(current.offset, target.offset, u) == obstacle.offset as real ensures u == t {
      OneTime(current.offset, target.offset, obstacle.offset, t, u);
    }
  }

  lemma OneTime(a: int, b: int, x: int, t: real, u: real)
    requires a != b && At(a, b, t) == x as real == At(a, b, u)
    ensures t == u
  {
    assert (t - u) * (b - a) as real == 0.0;
  }

  // ---- a window dragged straight at an edge of an output ----

  /** An edge that moves straight crosses what it overlaps. */
  lemma StraightTraverses(current: Edge, target: Edge, obstacle: Edge)
    requires current.min == target.min && current.max == target.max
    ensures Traverses(current, target, obstacle) <==> obstacle.min < current.max && current.min < obstacle.max
  {
  }

  /** The left edge of an output holds a window dragged to the left that was inside, would be outside by at most the strength, and is level with it. */
  lemma DraggedLeftIff(view: View, gap: int, area: Box, strength: int, x: int)
    requires Exact(view, gap, x, view.current.y) && SmallBox(area) && strength > 0 && x < view.current.x
    ensures var o, c := Obstacle(SideLine(BoxBorder(area), Left), strength), view.current;
            Holds(o, SideLine(EdgesAt(view, gap, c), Left), SideLine(EdgesAt(view, gap, Target(view, x, c.y)), Left), true, Traverses) <==>
              && area.x <= c.x - view.margin.left - gap && 0 < area.x - (x - view.margin.left - gap) <= strength
              && area.y < c.y + (if view.shaded then 0 else c.height) + view.margin.bottom + gap
              && c.y - view.margin.top - gap < area.y + area.height
  {
    var c := view.current;
    StraightTraverses(SideLine(EdgesAt(view, gap, c), Left), SideLine(EdgesAt(view, gap, Target(view, x, c.y)), Left),
                      SideLine(BoxBorder(area), Left));
  }

  /** The same for a window dragged upwards at the upper edge. */
  lemma DraggedUpIff(view: View, gap: int, area: Box, strength: int, y: int)
    requires Exact(view, gap, view.current.x, y) && SmallBox(area) && strength > 0 && y < view.current.y
    ensures var o, c := Obstacle(SideLine(BoxBorder(area), Top), strength), view.current;
            Holds(o, SideLine(EdgesAt(view, gap, c), Top), SideLine(EdgesAt(view, gap, Target(view, c.x, y)), Top), true, Traverses) <==>
              && area.y <= c.y - view.margin.top - gap && 0 < area.y - (y - view.margin.top - gap) <= strength
              && area.x < c.x + c.width + view.margin.right + gap && c.x - view.margin.left - gap < area.x + area.width
  {
    var c := view.current;
    StraightTraverses(SideLine(EdgesAt(view, gap, c), Top), SideLine(EdgesAt(view, gap, Target(view, c.x, y)), Top),
                      SideLine(BoxBorder(area), Top));
  }

  /** The right edge, for a window dragged to the right. */
  lemma DraggedRightIff(view: View, gap: int, area: Box, strength: int, x: int)
    requires Exact(view, gap, x, view.current.y) && SmallBox(area) && strength > 0 && x > view.current.x
    ensures var o, c := Obstacle(SideLine(BoxBorder(area), Right), strength), view.current;
            Holds(o, SideLine(EdgesAt(view, gap, c), Right), SideLine(EdgesAt(view, gap, Target(view, x, c.y)), Right), false, Traverses) <==>
              && c.x + c.width + view.margin.right + gap <= area.x + area.width
              && 0 < x + c.width + view.margin.right + gap - (area.x + area.width) <= strength
              && area.y < c.y + (if view.shaded then 0 else c.height) + view.margin.bottom + gap
              && c.y - view.margin.top - gap < area.y + area.height
  {
    var c := view.current;
    StraightTraverses(SideLine(EdgesAt(view, gap, c), Right), SideLine(EdgesAt(view, gap, Target(view, x, c.y)), Right),
                      SideLine(BoxBorder(area), Right));
  }

  /** And the lower edge, for a window dragged down. */
  lemma DraggedDownIff(view: View, gap: int, area: Box, strength: int, y: int)
    requires Exact(view, gap, view.current.x, y) && SmallBox(area) && strength > 0 && y > view.current.y
    ensures var o, c := Obstacle(SideLine(BoxBorder(area), Bottom), strength), view.current;
            var height := if view.shaded then 0 else c.height;
            Holds(o, SideLine(EdgesAt(view, gap, c), Bottom), SideLine(EdgesAt(view, gap, Target(view, c.x, y)), Bottom), false, Traverses) <==>
              && c.y + height + view.margin.bottom + gap <= area.y + area.height
              && 0 < y + height + view.margin.bottom + gap - (area.y + area.height) <= strength
              && area.x < c.x + c.width + view.margin.right + gap && c.x - view.margin.left - gap < area.x + area.width
  {
    var c := view.current;
    StraightTraverses(SideLine(EdgesAt(view, gap, c), Bottom), SideLine(EdgesAt(view, gap, Target(view, c.x, y)), Bottom),
                      SideLine(BoxBorder(area), Bottom));
  }
}
