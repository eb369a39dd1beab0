/** Snapping a moving window to the edges of its neighbours (src/snap.c). */
module Snap {
  import opened Options
  import opened Geometry
  import opened Edges

  /** Between the current and the target position of a moving edge, the target included. */
  predicate Ahead(o: int, cur: int, tgt: int) {
    (tgt <= o && o < cur) || (cur < o && o <= tgt)
  }

  /** check_edge of src/snap.c */
  function SnapCheck(next: int, current: Edge, target: Edge, oppose: Edge, align: Edge, lesser: bool): int {
    var cur, tgt := current.offset, target.offset;
    var decreasing := tgt < cur;
    if cur == tgt then next
    else
      var best := if Ahead(oppose.offset, cur, tgt) then EdgeGetBest(next, oppose.offset, decreasing) else next;
      if Ahead(align.offset, cur, tgt) then EdgeGetBest(best, align.offset, decreasing) else best
  }

  function Opposing(r: Region, s: Side): int
    requires IntBorder(r.edges)
  {
    BuildVisibleEdge(r.edges, Invert(s), 0, r.visible).offset
  }

  function Aligned(r: Region, s: Side, gap: int): int
    requires IntBorder(r.edges) && IsInt(gap)
  {
    BuildVisibleEdge(r.edges, s, gap, r.visible).offset
  }

  /** The edges that the regions offer to the moving side s. */
  function Offers(rs: seq<Region>, s: Side, gap: int): set<int>
    requires IntRegions(rs) && IsInt(gap)
  {
    if rs == [] then {}
    else Offers(rs[..|rs| - 1], s, gap) + {Opposing(rs[|rs| - 1], s), Aligned(rs[|rs| - 1], s, gap)}
  }

  /** r is the first of the offered edges on the way from cur to tgt, or the untouched sentinel if there is none. */
  ghost predicate FirstMet(r: int, init: int, offers: set<int>, cur: int, tgt: int) {
    if Bounded(r) then
      r in offers && Ahead(r, cur, tgt) && forall o :: o in offers && Ahead(o, cur, tgt) ==> Abs(r - cur) <= Abs(o - cur)
    else
      r == init && forall o :: o in offers ==> !Ahead(o, cur, tgt)
  }

  lemma {:induction false} FoldFindsFirst(init: int, view: Border, target: Border, rs: seq<Region>, gap: int, s: Side)
    requires IntBorder(view) && IntBorder(target) && IntRegions(rs) && IsInt(gap)
    requires !Bounded(init) && Bounded(Offset(view, s)) && Bounded(Offset(target, s))
    ensures FirstMet(FoldSide(init, view, target, rs, gap, SnapCheck, s), init, Offers(rs, s, gap), Offset(view, s), Offset(target, s))
  {
    if rs != [] {
      FoldFindsFirst(init, view, target, rs[..|rs| - 1], gap, s);
      var q := rs[|rs| - 1];
      FirstMetStep(FoldSide(init, view, target, rs[..|rs| - 1], gap, SnapCheck, s), init, Offers(rs[..|rs| - 1], s, gap),
                   Opposing(q, s), Aligned(q, s, gap), Offset(view, s), Offset(target, s));
    }
  }

  lemma FirstMetStep(r: int, init: int, offers: set<int>, opp: int, aln: int, cur: int, tgt: int)
    requires Bounded(cur) && Bounded(tgt) && !Bounded(init)
    requires FirstMet(r, init, offers, cur, tgt)
    ensures FirstMet(SnapCheck(r, Edge(cur, 0, 0), Edge(tgt, 0, 0), Edge(opp, 0, 0), Edge(aln, 0, 0), true),
                     init, offers + {opp, aln}, cur, tgt)
  {
  }

  // ---- in the coordinates of the view ----

  /** Regions with small coordinates and all four sides visible. */
  predicate PlainRegions(rs: seq<Region>) {
    forall r :: r in rs ==> SmallBorder(r.edges) && r.visible == ALL_SIDES
  }

  /** At coordinate p one edge of the view meets an edge of the region: opposing edges a gap apart, aligned edges flush. */
  predicate Aligns(e: Border, near: int, far: int, gap: int, horizontal: bool, p: int) {
    var lo, hi := Get(e, LesserSide(horizontal)), Get(e, GreaterSide(horizontal));
    p - near == hi || p - near == lo - gap || p + far == lo || p + far == hi + gap
  }

  /** Some region gives the view a reason to stop at p. */
  predicate Stop(rs: seq<Region>, near: int, far: int, gap: int, horizontal: bool, p: int) {
    rs != [] && (Aligns(rs[|rs| - 1].edges, near, far, gap, horizontal, p) || Stop(rs[..|rs| - 1], near, far, gap, horizontal, p))
  }

  lemma AlignsIsOffer(r: Region, near: int, far: int, gap: int, horizontal: bool, p: int)
    requires SmallBorder(r.edges) && r.visible == ALL_SIDES && Small(gap)
    ensures Aligns(r.edges, near, far, gap, horizontal, p) <==>
              || p - near == Opposing(r, LesserSide(horizontal)) || p - near == Aligned(r, LesserSide(horizontal), gap)
              || p + far == Opposing(r, GreaterSide(horizontal)) || p + far == Aligned(r, GreaterSide(horizontal), gap)
  {
  }

  lemma {:induction false} StopIsOffer(rs: seq<Region>, near: int, far: int, gap: int, horizontal: bool, p: int)
    requires PlainRegions(rs) && IntRegions(rs) && Small(gap)
    ensures Stop(rs, near, far, gap, horizontal, p) <==>
              p - near in Offers(rs, LesserSide(horizontal), gap) || p + far in Offers(rs, GreaterSide(horizontal), gap)
  {
    if rs != [] {
      StopIsOffer(rs[..|rs| - 1], near, far, gap, horizontal, p);
      AlignsIsOffer(rs[|rs| - 1], near, far, gap, horizontal, p);
    }
  }

  /**
   q is where a view moving from start to target along one axis comes to rest: strictly ahead, at the
   alignment nearest to start, or at the target if there is no alignment on the way.
   */
  ghost predicate Rest(rs: seq<Region>, near: int, far: int, gap: int, horizontal: bool, start: int, target: int, q: int) {
    && Ahead(q, start, target)
    && (q == target || Stop(rs, near, far, gap, horizontal, q))
    && forall p :: Stop(rs, near, far, gap, horizontal, p) && Ahead(p, start, target) ==> Abs(q - start) <= Abs(p - start)
  }

  /** No offer, shifted to the view's coordinate, is ahead and nearer than q. */
  ghost predicate Nearest(offers: set<int>, shift: int, start: int, target: int, q: int) {
    forall o :: o in offers && Ahead(o + shift, start, target) ==> Abs(q - start) <= Abs(o + shift - start)
  }

  /** q is ahead, one of the offers or the target, and none of the offers is nearer. */
  ghost predicate Settled(lesser: set<int>, greater: set<int>, near: int, far: int, start: int, target: int, q: int) {
    && Ahead(q, start, target)
    && (q == target || q - near in lesser || q + far in greater)
    && Nearest(lesser, near, start, target, q) && Nearest(greater, -far, start, target, q)
  }

  /** The two moving edges are searched separately; the better candidate of the two is the resting place. */
  lemma BetterOfTwo(lesser: set<int>, greater: set<int>, near: int, far: int, start: int, target: int, r1: int, r2: int)
    requires Abs(start) < 0x1000_0000 && Abs(target) < 0x6000_0000 && start != target
    requires Abs(near) < 0x3000_0000 && Abs(far) < 0x3000_0000
    requires FirstMet(r1, INT_MIN, lesser, start - near, target - near)
    requires FirstMet(r2, INT_MAX, greater, start + far, target + far)
    ensures IsInt(r1) && IsInt(r2)
    ensures Settled(lesser, greater, near, far, start, target, AdjustMoveAxis(start, target, r1, near, r2, far))
  {
    assert Bounded(r1) ==> Ahead(r1 + near, start, target);
    assert Bounded(r2) ==> Ahead(r2 - far, start, target);
  }

  lemma AxisRests(rs: seq<Region>, near: int, far: int, gap: int, horizontal: bool, start: int, target: int, q: int)
    requires PlainRegions(rs) && IntRegions(rs) && Small(gap)
    requires Settled(Offers(rs, LesserSide(horizontal), gap), Offers(rs, GreaterSide(horizontal), gap), near, far, start, target, q)
    ensures Rest(rs, near, far, gap, horizontal, start, target, q)
  {
    StopIsOffer(rs, near, far, gap, horizontal, q);
    forall p | Stop(rs, near, far, gap, horizontal, p) && Ahead(p, start, target) ensures Abs(q - start) <= Abs(p - start) {
      StopIsOffer(rs, near, far, gap, horizontal, p);
      assert (p - near) + near == p && (p + far) + -far == p;
    }
  }

  lemma BothSides(rs: seq<Region>, near: int, far: int, gap: int, horizontal: bool, start: int, target: int, r1: int, r2: int)
    requires PlainRegions(rs) && IntRegions(rs) && Small(gap)
    requires Abs(start) < 0x1000_0000 && Abs(target) < 0x6000_0000 && start != target
    requires Abs(near) < 0x3000_0000 && Abs(far) < 0x3000_0000
    requires FirstMet(r1, INT_MIN, Offers(rs, LesserSide(horizontal), gap), start - near, target - near)
    requires FirstMet(r2, INT_MAX, Offers(rs, GreaterSide(horizontal), gap), start + far, target + far)
    ensures IsInt(r1) && IsInt(r2)
    ensures Rest(rs, near, far, gap, horizontal, start, target, AdjustMoveAxis(start, target, r1, near, r2, far))
  {
    var lesser, greater := Offers(rs, LesserSide(horizontal), gap), Offers(rs, GreaterSide(horizontal), gap);
    BetterOfTwo(lesser, greater, near, far, start, target, r1, r2);
    var q := AdjustMoveAxis(start, target, r1, near, r2, far);
    AxisRests(rs, near, far, gap, horizontal, start, target, q);
  }

  // ---- snap_move_to_edge ----

  /** A view and a configuration for which the arithmetic is exact. */
  predicate Exact(view: View, thickness: Border, gap: int) {
    SmallBox(view.pending) && SmallBorder(view.margin) && SmallBorder(thickness) && SmallBox(view.output.area) && Small(gap)
  }

  predicate Horizontal(dir: Side) {
    dir == Left || dir == Right
  }

  function Start(view: View, dir: Side): int {
    if Horizontal(dir) then view.pending.x else view.pending.y
  }

  /** Where the view would touch the edge of its output. */
  function Target(view: View, thickness: Border, gap: int, dir: Side): int {
    var usable := view.output.area;
    match dir
    case Left => usable.x + thickness.left + gap
    case Right => usable.x + usable.width - gap - view.pending.width - thickness.right
    case Top => usable.y + thickness.top + gap
    case Bottom => usable.y + usable.height - gap - thickness.bottom - view.EffectiveHeight(true)
  }

  /** With its coordinate at p, the decorated window is a gap inside the edge of its output on side dir. */
  predicate Flush(view: View, thickness: Border, gap: int, dir: Side, p: int) {
    var usable, height := view.output.area, if view.shaded then 0 else view.pending.height;
    match dir
    case Left => p - thickness.left - gap == usable.x
    case Right => p + view.pending.width + thickness.right + gap == usable.x + usable.width
    case Top => p - thickness.top - gap == usable.y
    case Bottom => p + height + thickness.bottom + gap == usable.y + usable.height
  }

  lemma TargetIsFlush(view: View, thickness: Border, gap: int, dir: Side, p: int)
    ensures Flush(view, thickness, gap, dir, p) <==> p == Target(view, thickness, gap, dir)
    ensures Get(EdgesForTarget(thickness, gap, view.shaded, Moved(view.pending, dir, Target(view, thickness, gap, dir))), dir)
         == Get(BoxBorder(view.output.area), dir)
  {
  }

  /** The edge of the output lies in the commanded direction. */
  predicate TargetAhead(view: View, thickness: Border, gap: int, dir: Side) {
    if IsLesser(dir) then Target(view, thickness, gap, dir) < Start(view, dir)
    else Target(view, thickness, gap, dir) > Start(view, dir)
  }

  /** The decorated window is further than a gap inside the edge of its output on side dir. */
  predicate HasRoom(view: View, thickness: Border, gap: int, dir: Side) {
    var usable, b := view.output.area, view.pending;
    match dir
    case Left => usable.x + gap < b.x - thickness.left
    case Right => b.x + b.width + thickness.right < usable.x + usable.width - gap
    case Top => usable.y + gap < b.y - thickness.top
    case Bottom => b.y + (if view.shaded then 0 else b.height) + thickness.bottom < usable.y + usable.height - gap
  }

  lemma TargetAheadIff(view: View, thickness: Border, gap: int, dir: Side)
    ensures TargetAhead(view, thickness, gap, dir) <==> HasRoom(view, thickness, gap, dir)
  {
  }

  function Near(view: View, gap: int, dir: Side): int {
    NearShift(view.margin, gap, Horizontal(dir))
  }

  function Far(view: View, gap: int, dir: Side): int {
    FarShift(view.margin, gap, Horizontal(dir), view.pending.width, view.EffectiveHeight(true))
  }

  function SameOutput(views: seq<View>, view: View, workspace: nat): seq<Region> {
    Neighbors(views, |views|, view, workspace, Some(view.output), false)
  }

  // ---- the stops, window by window ----

  /** The decorated extent of a box along one axis. */
  function Low(b: Box, margin: Border, horizontal: bool): int {
    if horizontal then b.x - margin.left else b.y - margin.top
  }

  function High(b: Box, margin: Border, shaded: bool, horizontal: bool): int {
    if horizontal then b.x + b.width + margin.right else b.y + (if shaded then 0 else b.height) + margin.bottom
  }

  /** One edge of the extent lo..hi is a gap before or after another extent, or flush with its near or far edge. */
  predicate Touch(lo: int, hi: int, low: int, high: int, gap: int) {
    lo == high + gap || lo == low || hi + gap == low || hi == high
  }

  /** At coordinate p the decorated view touches the decorated window v. */
  predicate TouchesAt(view: View, v: View, gap: int, horizontal: bool, p: int) {
    var b := if horizontal then view.pending.(x := p) else view.pending.(y := p);
    Touch(Low(b, view.margin, horizontal), High(b, view.margin, view.shaded, horizontal),
          Low(v.current, v.margin, horizontal), High(v.current, v.margin, v.shaded, horizontal), gap)
  }

  lemma AlignsIff(view: View, v: View, gap: int, horizontal: bool, p: int)
    ensures Aligns(v.WinEdges(), NearShift(view.margin, gap, horizontal),
                   FarShift(view.margin, gap, horizontal, view.pending.width, view.EffectiveHeight(true)), gap, horizontal, p)
            <==> TouchesAt(view, v, gap, horizontal, p)
  {
  }

  /** The view has a reason to stop at p exactly if it touches there one of the windows in its way. */
  lemma {:induction false} StopIff(view: View, views: seq<View>, n: nat, workspace: nat, gap: int, dir: Side, p: int)
    requires n <= |views|
    ensures Stop(Neighbors(views, n, view, workspace, Some(view.output), false), Near(view, gap, dir), Far(view, gap, dir), gap,
                 Horizontal(dir), p)
            <==> exists k :: 0 <= k < n && InTheWay(views[k], view, workspace, Some(view.output), false) && TouchesAt(view, views[k], gap, Horizontal(dir), p)
  {
    if n > 0 {
      StopIff(view, views, n - 1, workspace, gap, dir, p);
      NeighborIff(views[n - 1], view, workspace, Some(view.output), false);
      AlignsIff(view, views[n - 1], gap, Horizontal(dir), p);
    }
  }

  predicate SmallWindows(views: seq<View>) {
    forall v :: v in views ==> SmallBorder(v.WinEdges())
  }

  lemma {:induction false} NeighborsArePlain(views: seq<View>, n: nat, view: View, workspace: nat, only: Option<Output>)
    requires n <= |views| && SmallWindows(views)
    ensures PlainRegions(Neighbors(views, n, view, workspace, only, false))
  {
    if n > 0 {
      NeighborsArePlain(views, n - 1, view, workspace, only);
      assert views[n - 1] in views;
    }
  }

  lemma PlainIsInt(rs: seq<Region>)
    requires PlainRegions(rs)
    ensures IntRegions(rs)
  {
  }

  method MoveToEdge(view: View, views: seq<View>, workspace: nat, thickness: Border, gap: int, dir: Side, snapToWindows: bool)
    returns (dx: int, dy: int)
    requires Exact(view, thickness, gap) && SmallWindows(views)
    ensures Horizontal(dir) ==> dy == 0
    ensures !Horizontal(dir) ==> dx == 0
    ensures Flush(view, thickness, gap, dir, Target(view, thickness, gap, dir))
    ensures !view.output.usable || !TargetAhead(view, thickness, gap, dir) ==> dx == 0 && dy == 0
    ensures view.output.usable && TargetAhead(view, thickness, gap, dir) ==>
              var start, target := Start(view, dir), Target(view, thickness, gap, dir);
              var q := if Horizontal(dir) then view.pending.x + dx else view.pending.y + dy;
              if snapToWindows then
                Rest(SameOutput(views, view, workspace), Near(view, gap, dir), Far(view, gap, dir), gap, Horizontal(dir), start, target, q)
              else q == target
  {
    dx, dy := 0, 0;
    if !view.output.usable {
      return;
    }
    var goal := Target(view, thickness, gap, dir);
    if IsLesser(dir) {
      if goal >= Start(view, dir) {
        return;
      }
    } else {
      if goal <= Start(view, dir) {
        return;
      }
    }
    var rest := goal;
    if snapToWindows {
      rest := LimitByWindows(view, views, workspace, thickness, gap, dir, goal);
    }
    if Horizontal(dir) {
      dx := rest - view.pending.x;
    } else {
      dy := rest - view.pending.y;
    }
  }

  function Moved(box: Box, dir: Side, goal: int): Box {
    if Horizontal(dir) then box.(x := goal) else box.(y := goal)
  }

  /** The part of snap_move_to_edge that looks at other windows: the coordinate at which the motion ends. */
  method LimitByWindows(view: View, views: seq<View>, workspace: nat, thickness: Border, gap: int, dir: Side, goal: int)
    returns (rest: int)
    requires Exact(view, thickness, gap) && SmallWindows(views) && view.output.usable
    requires goal == Target(view, thickness, gap, dir) && goal != Start(view, dir)
    ensures Rest(SameOutput(views, view, workspace), Near(view, gap, dir), Far(view, gap, dir), gap, Horizontal(dir),
                 Start(view, dir), goal, rest)
  {
    ghost var rs := SameOutput(views, view, workspace);
    NeighborsArePlain(views, |views|, view, workspace, Some(view.output));
    PlainIsInt(rs);
    MovingEdges(view, thickness, gap, dir, Start(view, dir));
    MovingEdges(view, thickness, gap, dir, goal);
    assert Moved(view.pending, dir, Start(view, dir)) == view.pending;
    var edges := FindNeighbors(UNBOUNDED, views, view, workspace, view.pending, Moved(view.pending, dir, goal),
                               Some(view.output), gap, SnapCheck, false);
    var from := EdgesForTarget(view.margin, gap, view.shaded, view.pending);
    var to := EdgesForTarget(view.margin, gap, view.shaded, Moved(view.pending, dir, goal));
    EdgesRest(from, to, rs, gap, Horizontal(dir), Near(view, gap, dir), Far(view, gap, dir), Start(view, dir), goal);
    var lesser, greater := Get(edges, LesserSide(Horizontal(dir))), Get(edges, GreaterSide(Horizontal(dir)));
    rest := AdjustMoveAxis(Start(view, dir), goal, lesser, Near(view, gap, dir), greater, Far(view, gap, dir));
  }

  lemma EdgesRest(from: Border, to: Border, rs: seq<Region>, gap: int, horizontal: bool, near: int, far: int, start: int, goal: int)
    requires PlainRegions(rs) && IntRegions(rs) && Small(gap) && IntBorder(from) && IntBorder(to)
    requires Abs(start) < 0x1000_0000 && Abs(goal) < 0x6000_0000 && start != goal
    requires Abs(near) < 0x3000_0000 && Abs(far) < 0x3000_0000
    requires Offset(from, LesserSide(horizontal)) == start - near && Offset(from, GreaterSide(horizontal)) == start + far
    requires Offset(to, LesserSide(horizontal)) == goal - near && Offset(to, GreaterSide(horizontal)) == goal + far
    requires Bounded(start - near) && Bounded(start + far) && Bounded(goal - near) && Bounded(goal + far)
    ensures var edges := FoldRegions(UNBOUNDED, from, to, rs, gap, SnapCheck);
            var lesser, greater := Get(edges, LesserSide(horizontal)), Get(edges, GreaterSide(horizontal));
            && IsInt(lesser) && IsInt(greater)
            && Rest(rs, near, far, gap, horizontal, start, goal, AdjustMoveAxis(start, goal, lesser, near, greater, far))
  {
    var edges := FoldRegions(UNBOUNDED, from, to, rs, gap, SnapCheck);
    NearestEdge(UNBOUNDED, from, to, rs, gap, LesserSide(horizontal));
    NearestEdge(UNBOUNDED, from, to, rs, gap, GreaterSide(horizontal));
    BothSides(rs, near, far, gap, horizontal, start, goal, Get(edges, LesserSide(horizontal)), Get(edges, GreaterSide(horizontal)));
  }

  /** Where the two moving edges are when the view is at coordinate p. */
  lemma MovingEdges(view: View, thickness: Border, gap: int, dir: Side, p: int)
    requires Exact(view, thickness, gap)
    requires p == Start(view, dir) || p == Target(view, thickness, gap, dir)
    ensures var e := EdgesForTarget(view.margin, gap, view.shaded, Moved(view.pending, dir, p));
            && IntBorder(e)
            && Offset(e, LesserSide(Horizontal(dir))) == p - Near(view, gap, dir)
            && Offset(e, GreaterSide(Horizontal(dir))) == p + Far(view, gap, dir)
            && Bounded(p - Near(view, gap, dir)) && Bounded(p + Far(view, gap, dir))
    ensures Abs(p) < 0x6000_0000 && Abs(Near(view, gap, dir)) < 0x3000_0000 && Abs(Far(view, gap, dir)) < 0x3000_0000
  {
  }

  /** The fold leaves, on a moving side, the first edge met. */
  lemma NearestEdge(init: Border, from: Border, to: Border, rs: seq<Region>, gap: int, s: Side)
    requires IntBorder(from) && IntBorder(to) && IntRegions(rs) && IsInt(gap) && init == UNBOUNDED
    requires Bounded(Offset(from, s)) && Bounded(Offset(to, s))
    ensures FirstMet(Get(FoldRegions(init, from, to, rs, gap, SnapCheck), s), if IsLesser(s) then INT_MIN else INT_MAX,
                     Offers(rs, s, gap), Offset(from, s), Offset(to, s))
  {
    FoldBySide(init, from, to, rs, gap, SnapCheck, s);
    FoldFindsFirst(Get(init, s), from, to, rs, gap, s);
  }

  // ---- repeating the command ----

  /** The positions of a view that is sent to the same edge again and again; the last one is where it stays. */
  ghost predicate Run(rs: seq<Region>, near: int, far: int, gap: int, horizontal: bool, target: int, xs: seq<int>) {
    |xs| > 0 && forall k :: 0 <= k < |xs| - 1 ==> xs[k] != target && Rest(rs, near, far, gap, horizontal, xs[k], target, xs[k + 1])
  }

  /** Every repetition comes strictly closer, so a run has at most as many steps as the initial distance. */
  lemma {:induction false} RunsEnd(rs: seq<Region>, near: int, far: int, gap: int, horizontal: bool, target: int, xs: seq<int>)
    requires Run(rs, near, far, gap, horizontal, target, xs)
    ensures |xs| - 1 + Abs(target - xs[|xs| - 1]) <= Abs(target - xs[0])
    ensures forall k :: 0 <= k < |xs| ==> xs[k] == xs[0] || Ahead(xs[k], xs[0], target)
  {
    var n := |xs| - 1;
    if n > 0 {
      RunsEnd(rs, near, far, gap, horizontal, target, xs[..n]);
      assert Rest(rs, near, far, gap, horizontal, xs[n - 1], target, xs[n]);
    }
  }

  /** A run that reaches the edge of the output has stopped at every single alignment on the way. */
  lemma {:induction false} RunsStopEverywhere(rs: seq<Region>, near: int, far: int, gap: int, horizontal: bool, target: int, xs: seq<int>, p: int)
    requires Run(rs, near, far, gap, horizontal, target, xs) && xs[|xs| - 1] == target
    requires Stop(rs, near, far, gap, horizontal, p) && Ahead(p, xs[0], target)
    ensures p in xs
  {
    assert |xs| > 1;
    assert Rest(rs, near, far, gap, horizontal, xs[0], target, xs[1]);
    if xs[1] != p {
      assert Ahead(p, xs[1], target);
      forall k | 0 <= k < |xs[1..]| - 1
        ensures xs[1..][k] != target && Rest(rs, near, far, gap, horizontal, xs[1..][k], target, xs[1..][k + 1])
      {
        assert xs[1..][k] == xs[k + 1];
      }
      RunsStopEverywhere(rs, near, far, gap, horizontal, target, xs[1..], p);
    }
  }
}
