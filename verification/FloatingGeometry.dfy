/** Maximized, fullscreen and tiled states, and the geometry they give back (src/view.c). */
module FloatingGeometry {
  import opened Options
  import opened Geometry

  datatype Axis = NoAxis | Horizontal | Vertical | Both
  {
    predicate HasHorizontal() { this == Horizontal || this == Both }

    predicate HasVertical() { this == Vertical || this == Both }
  }

  datatype Tile = Top | Bottom | Left | Right | Center

  /**
   One output with what the window finds there: its usable area and its whole box, the decorations, the boxes
   that tiled states use, whether the window must not be moved (`pinned`: a window rule or a panel), where
   the placement policy puts a window, and the geometry it makes up for an unknown one.
   */
  datatype Env = Env(usable: Box, outputBox: Box, margin: Border, thickness: Border, decorated: bool,
                     edgeBox: set<Tile> -> Box, regionBox: nat -> Box,
                     pinned: bool, place: Box -> Box, fallback: Box)

  datatype View = View(pending: Box, natural: Box, maximized: Axis, fullscreen: bool, tiled: set<Tile>, region: Option<nat>)
  {
    predicate IsTiled() {
      tiled != {} || region.Some?
    }

    predicate IsFloating() {
      !(fullscreen || maximized != NoAxis || IsTiled())
    }
  }

  // ---- geometry of the states ----

  /** view_compute_centered_position, for a box with a size */
  function Centered(env: Env, b: Box): Box {
    if b.width <= 0 || b.height <= 0 then b
    else
      b.(x := CenterAxis(b.width + env.margin.left + env.margin.right, env.usable.x, env.usable.width) + env.margin.left,
         y := CenterAxis(b.height + env.margin.top + env.margin.bottom, env.usable.y, env.usable.height) + env.margin.top)
  }

  /** view_apply_maximized_geometry */
  function MaximizedBox(env: Env, v: View): Box {
    var natural := if v.maximized != Both && !env.usable.Intersects(v.natural) then Centered(env, v.natural) else v.natural;
    var t := if env.decorated then env.thickness else Border(0, 0, 0, 0);
    var box := Box(env.usable.x + t.left, env.usable.y + t.top,
                   env.usable.width - (t.right + t.left), env.usable.height - (t.top + t.bottom));
    match v.maximized
    case Vertical => box.(x := natural.x, width := natural.width)
    case Horizontal => box.(y := natural.y, height := natural.height)
    case _ => box
  }

  /** view_apply_special_geometry */
  function SpecialBox(env: Env, v: View): Box {
    if v.fullscreen then env.outputBox
    else if v.maximized != NoAxis then MaximizedBox(env, v)
    else if v.tiled != {} then env.edgeBox(v.tiled)
    else if v.region.Some? then env.regionBox(v.region.value)
    else v.pending
  }

  /**
   adjust_floating_geometry without midpoint visibility: a box that meets the output has its title bar moved
   into the usable area, any other box is placed anew.
   */
  function Adjusted(env: Env, b: Box): Box {
    if env.pinned then b
    else if env.outputBox.Intersects(b) then
      b.(x := Max(b.x, env.usable.x + env.margin.left), y := Max(b.y, env.usable.y + env.margin.top))
    else env.place(b)
  }

  /** view_apply_natural_geometry */
  function NaturalBox(env: Env, natural: Box): Box {
    if natural.Empty() then natural else Adjusted(env, natural)
  }

  /** view_store_natural_geometry */
  function Stored(v: View): View {
    if v.fullscreen || v.IsTiled() then v
    else
      var n1 := if v.maximized.HasHorizontal() then v.natural else v.natural.(x := v.pending.x, width := v.pending.width);
      v.(natural := if v.maximized.HasVertical() then n1 else n1.(y := v.pending.y, height := v.pending.height))
  }

  /** Where a view goes after its state has changed. */
  function Applied(env: Env, v: View): View {
    v.(pending := if v.IsFloating() then NaturalBox(env, v.natural) else SpecialBox(env, v))
  }

  predicate IsSingle(axis: Axis) {
    axis == Horizontal || axis == Vertical
  }

  /** An unknown natural geometry cannot be asked for along one axis only. */
  function WithFallback(env: Env, v: View, axis: Axis): View {
    if IsSingle(axis) && v.natural.Empty() then v.(natural := env.fallback) else v
  }

  /** view_maximize, outside an interactive move */
  function Maximized(env: Env, v: View, axis: Axis): View {
    if v.maximized == axis || v.fullscreen then v
    else Applied(env, WithFallback(env, Stored(v), axis).(maximized := axis))
  }

  /** view_set_fullscreen on a usable output */
  function Fullscreened(env: Env, v: View, on: bool): View {
    if v.fullscreen == on then v else Applied(env, (if on then Stored(v) else v).(fullscreen := on))
  }

  predicate Cardinal(edge: set<Tile>) {
    edge == {Top} || edge == {Bottom} || edge == {Left} || edge == {Right}
  }

  function Invert(edge: set<Tile>): set<Tile> {
    if edge == {Top} then {Bottom} else if edge == {Bottom} then {Top} else if edge == {Left} then {Right} else {Left}
  }

  /** The conditions under which view_snap_to_edge looks at the present tiling. */
  predicate LooksAtTiling(v: View, edge: set<Tile>) {
    Cardinal(edge) && v.maximized == NoAxis && v.tiled != {Center}
  }

  /** Tiling once more to the edge the window is tiled to sends it across, to the next output. */
  predicate GoesAcross(v: View, edge: set<Tile>, across: bool) {
    LooksAtTiling(v, edge) && across && v.tiled == edge
  }

  /** The edge that view_snap_to_edge tiles to when it stays on its output. */
  function CombinedEdge(v: View, edge: set<Tile>, combine: bool): set<Tile> {
    if LooksAtTiling(v, edge) then
      var mask := edge + Invert(edge);
      var parallel, orthogonal := v.tiled * mask, v.tiled - mask;
      if combine && parallel == Invert(edge) && orthogonal != {} then orthogonal
      else if combine && parallel == {} then v.tiled + edge
      else edge
    else edge
  }

  /** Leaving a maximized state keeps the stored geometry; otherwise the current one is stored. */
  function BeforeTiling(env: Env, v: View): View {
    if v.maximized != NoAxis then Maximized(env, v, NoAxis) else Stored(v)
  }

  /** A window and the output it is on. */
  datatype Placed = Placed(env: Env, v: View)

  /** view_snap_to_edge; `next` is the adjacent usable output in the direction of the edge, if there is one. */
  function SnappedToEdge(p: Placed, edge: set<Tile>, across: bool, combine: bool, next: Option<Env>): Placed {
    if p.v.fullscreen then p
    else if GoesAcross(p.v, edge, across) && next.None? then p
    else
      var env, target :=
        if GoesAcross(p.v, edge, across) then next.value else p.env,
        if GoesAcross(p.v, edge, across) then Invert(edge) else CombinedEdge(p.v, edge, combine);
      Placed(env, BeforeTiling(p.env, p.v).(region := None, tiled := target, pending := env.edgeBox(target)))
  }

  /** view_snap_to_region */
  function SnappedToRegion(env: Env, v: View, region: nat): View {
    if v.fullscreen then v
    else
      var v1 := BeforeTiling(env, v).(tiled := {}, region := Some(region));
      v1.(pending := env.regionBox(region))
  }

  /** The UnSnap action */
  function Unsnapped(env: Env, v: View): View {
    if v.fullscreen || v.IsFloating() then v
    else
      var v1 := Maximized(env, v, NoAxis).(tiled := {}, region := None);
      v1.(pending := NaturalBox(env, v1.natural))
  }

  // ---- the class ----

  class XdgView {
    var env: Env
    var v: View

    constructor (env: Env, geometry: Box)
      ensures this.env == env && v == View(geometry, geometry, NoAxis, false, {}, None)
    {
      this.env := env;
      v := View(geometry, geometry, NoAxis, false, {}, None);
    }

    method StoreNaturalGeometry()
      modifies this`v
      ensures v == Stored(old(v))
    {
      if v.fullscreen || v.IsTiled() {
        return;
      }
      if !v.maximized.HasHorizontal() {
        v := v.(natural := v.natural.(x := v.pending.x, width := v.pending.width));
      }
      if !v.maximized.HasVertical() {
        v := v.(natural := v.natural.(y := v.pending.y, height := v.pending.height));
      }
    }

    method AdjustFloatingGeometry(b: Box) returns (geometry: Box)
      ensures geometry == Adjusted(env, b)
    {
      geometry := b;
      if env.pinned {
        return;
      }
      if env.outputBox.Intersects(geometry) {
        if geometry.x < env.usable.x + env.margin.left {
          geometry := geometry.(x := env.usable.x + env.margin.left);
        }
        if geometry.y < env.usable.y + env.margin.top {
          geometry := geometry.(y := env.usable.y + env.margin.top);
        }
        return;
      }
      geometry := env.place(geometry);
    }

    method ApplyNaturalGeometry()
      modifies this`v
      ensures v == old(v).(pending := NaturalBox(env, old(v).natural))
    {
      var geometry := v.natural;
      if !geometry.Empty() {
        geometry := AdjustFloatingGeometry(geometry);
      }
      v := v.(pending := geometry);
    }

    method ApplyGeometry()
      modifies this`v
      ensures v == Applied(env, old(v))
    {
      if v.IsFloating() {
        ApplyNaturalGeometry();
      } else {
        v := v.(pending := SpecialBox(env, v));
      }
    }

    method Maximize(axis: Axis)
      modifies this`v
      ensures v == Maximized(env, old(v), axis)
    {
      if v.maximized == axis {
        return;
      }
      if v.fullscreen {
        return;
      }
      StoreNaturalGeometry();
      if (axis == Horizontal || axis == Vertical) && v.natural.Empty() {
        v := v.(natural := env.fallback);
      }
      v := v.(maximized := axis);
      ApplyGeometry();
    }

    method SetFullscreen(on: bool)
      modifies this`v
      ensures v == Fullscreened(env, old(v), on)
    {
      if on == v.fullscreen {
        return;
      }
      if on {
        StoreNaturalGeometry();
      }
      v := v.(fullscreen := on);
      ApplyGeometry();
    }

    method LeaveForTiling()
      modifies this`v
      ensures v == BeforeTiling(env, old(v))
    {
      if v.maximized != NoAxis {
        Maximize(NoAxis);
      } else {
        StoreNaturalGeometry();
      }
    }

    method SnapToEdge(edge: set<Tile>, across: bool, combine: bool, next: Option<Env>)
      modifies this
      ensures Placed(env, v) == SnappedToEdge(Placed(old(env), old(v)), edge, across, combine, next)
    {
      if v.fullscreen {
        return;
      }
      var output, target := env, edge;
      if Cardinal(edge) && v.maximized == NoAxis && v.tiled != {Center} {
        var mask := edge + Invert(edge);
        var parallel, orthogonal := v.tiled * mask, v.tiled - mask;
        if across && v.tiled == edge {
          if next.None? {
            return;
          }
          output := next.value;
          target := Invert(edge);
        } else if combine && parallel == Invert(edge) && orthogonal != {} {
          target := orthogonal;
        } else if combine && parallel == {} {
          target := v.tiled + edge;
        }
      }
      LeaveForTiling();
      v := v.(tiled := {}, region := None);
      env := output;
      v := v.(tiled := target);
      v := v.(pending := env.edgeBox(target));
    }

    method SnapToRegion(region: nat)
      modifies this`v
      ensures v == SnappedToRegion(env, old(v), region)
    {
      if v.fullscreen {
        return;
      }
      LeaveForTiling();
      v := v.(tiled := {}, region := None);
      v := v.(region := Some(region));
      v := v.(pending := env.regionBox(region));
    }

    method Unsnap()
      modifies this`v
      ensures v == Unsnapped(env, old(v))
    {
      if v.fullscreen || v.IsFloating() {
        return;
      }
      Maximize(NoAxis);
      v := v.(tiled := {}, region := None);
      ApplyNaturalGeometry();
    }
  }

  // ---- when the floating geometry survives ----

  /** The geometry comes back unchanged: it is pinned, or its title bar starts inside the usable area, or it is placed where it is. */
  predicate ComesBack(env: Env, g: Box) {
    || env.pinned
    || if env.outputBox.Intersects(g) then
         g.x >= env.usable.x + env.margin.left && g.y >= env.usable.y + env.margin.top
       else env.place(g) == g
  }

  /** Maximizing along one axis leaves the other: something of it is in the usable area, or it is centred there anyway. */
  predicate KeepsFreeAxis(env: Env, g: Box) {
    env.usable.Intersects(g) || Centered(env, g) == g
  }

  /** What a window's geometry has to satisfy on its output for no operation to lose it. */
  predicate Survives(env: Env, g: Box) {
    !g.Empty() && ComesBack(env, g) && KeepsFreeAxis(env, g)
  }

  /**
   What is known about g in every state: a floating view has it, any other view remembers it, and a view that
   is maximized along one axis only still has its other half.
   */
  predicate Holds(v: View, g: Box) {
    && Has(v, g)
    && (!v.fullscreen && v.maximized == Vertical ==> v.pending.x == g.x && v.pending.width == g.width)
    && (!v.fullscreen && v.maximized == Horizontal ==> v.pending.y == g.y && v.pending.height == g.height)
  }

  /** The promise itself: g is in place whenever the view floats, and remembered whenever it does not. */
  predicate Has(v: View, g: Box) {
    if v.IsFloating() then v.pending == g else v.natural == g
  }

  lemma StoringKeeps(v: View, g: Box)
    requires Holds(v, g)
    ensures Stored(v).natural == g
  {
  }

  lemma ApplyingKeeps(env: Env, v: View, g: Box)
    requires Survives(env, g) && v.natural == g
    ensures Holds(Applied(env, v), g)
  {
  }

  datatype Op =
    | Maximize(axis: Axis)
    | Fullscreen(on: bool)
    | SnapEdge(edge: set<Tile>, across: bool, combine: bool, next: Option<Env>)
    | SnapRegion(region: nat)
    | Unsnap

  function Do(p: Placed, op: Op): Placed {
    match op
    case Maximize(axis) => p.(v := Maximized(p.env, p.v, axis))
    case Fullscreen(on) => p.(v := Fullscreened(p.env, p.v, on))
    case SnapEdge(edge, across, combine, next) => SnappedToEdge(p, edge, across, combine, next)
    case SnapRegion(region) => p.(v := SnappedToRegion(p.env, p.v, region))
    case Unsnap => p.(v := Unsnapped(p.env, p.v))
  }

  function DoAll(p: Placed, ops: seq<Op>): Placed
    decreases |ops|
  {
    if ops == [] then p else DoAll(Do(p, ops[0]), ops[1..])
  }

  /** No state can be entered without an edge to tile to, and g survives on every output the window may be sent to. */
  predicate Proper(op: Op, g: Box) {
    op.SnapEdge? ==> op.edge != {} && (op.next.Some? ==> Survives(op.next.value, g))
  }

  lemma MaximizingKeeps(env: Env, v: View, g: Box, axis: Axis)
    requires Survives(env, g) && Holds(v, g)
    ensures Holds(Maximized(env, v, axis), g)
  {
    StoringKeeps(v, g);
    ApplyingKeeps(env, Stored(v).(maximized := axis), g);
  }

  lemma TilingKeeps(env: Env, v: View, g: Box)
    requires Survives(env, g) && Holds(v, g) && !v.fullscreen
    ensures var t := BeforeTiling(env, v);
            !t.fullscreen && t.maximized == NoAxis && t.natural == g
  {
    StoringKeeps(v, g);
    MaximizingKeeps(env, v, g, NoAxis);
  }

  lemma FullscreenKeeps(env: Env, v: View, g: Box, on: bool)
    requires Survives(env, g) && Holds(v, g)
    ensures Holds(Fullscreened(env, v, on), g)
  {
    StoringKeeps(v, g);
    if v.fullscreen != on {
      ApplyingKeeps(env, (if on then Stored(v) else v).(fullscreen := on), g);
    }
  }

  lemma EdgeKeeps(p: Placed, g: Box, op: Op)
    requires Survives(p.env, g) && Holds(p.v, g) && Proper(op, g) && op.SnapEdge?
    ensures Survives(Do(p, op).env, g) && Holds(Do(p, op).v, g)
  {
    if !p.v.fullscreen {
      TilingKeeps(p.env, p.v, g);
    }
  }

  lemma OpKeeps(p: Placed, g: Box, op: Op)
    requires Survives(p.env, g) && Holds(p.v, g) && Proper(op, g)
    ensures Survives(Do(p, op).env, g) && Holds(Do(p, op).v, g)
  {
    match op {
      case Maximize(axis) => MaximizingKeeps(p.env, p.v, g, axis);
      case Fullscreen(on) => FullscreenKeeps(p.env, p.v, g, on);
      case SnapEdge(edge, across, combine, next) => EdgeKeeps(p, g, op);
      case SnapRegion(region) =>
        if !p.v.fullscreen {
          TilingKeeps(p.env, p.v, g);
        }
      case Unsnap =>
        if !p.v.fullscreen {
          MaximizingKeeps(p.env, p.v, g, NoAxis);
        }
    }
  }

  /**
   After any sequence of maximizing along either or both axes, fullscreen, tiling to edges or regions, also
   across outputs, and unsnapping, a surviving geometry is in place whenever the view floats, and remembered
   whenever it does not.
   */
  lemma {:induction false} FloatingGeometryIsNeverLost(p: Placed, g: Box, ops: seq<Op>)
    requires Survives(p.env, g) && Holds(p.v, g)
    requires forall op <- ops :: Proper(op, g)
    ensures Holds(DoAll(p, ops).v, g)
    decreases |ops|
  {
    if ops != [] {
      assert ops[0] in ops;
      OpKeeps(p, g, ops[0]);
      FloatingGeometryIsNeverLost(Do(p, ops[0]), g, ops[1..]);
    }
  }

  // ---- and only then ----

  /** A window that floats at g. */
  predicate FloatsAt(v: View, g: Box) {
    v.IsFloating() && v.pending == g && !g.Empty()
  }

  /** Maximizing and unmaximizing gives g back exactly if it comes back on its output. */
  lemma UnmaximizeRestoresIff(env: Env, v: View, g: Box)
    requires FloatsAt(v, g)
    ensures Maximized(env, Maximized(env, v, Both), NoAxis).pending == g <==> ComesBack(env, g)
  {
  }

  /** Maximizing one axis first and then both remembers g exactly if the free axis was left alone. */
  lemma MaximizeTwiceRemembersIff(env: Env, v: View, g: Box)
    requires FloatsAt(v, g)
    ensures Maximized(env, Maximized(env, v, Horizontal), Both).natural == g <==>
              env.usable.Intersects(g) || Centered(env, g).y == g.y
    ensures Maximized(env, Maximized(env, v, Vertical), Both).natural == g <==>
              env.usable.Intersects(g) || Centered(env, g).x == g.x
  {
  }

  /** Operations on one output. */
  predicate StaysThere(op: Op) {
    op.SnapEdge? ==> op.edge != {} && op.next.None?
  }

  /** Every sequence of operations on one output keeps the promise about g. */
  ghost predicate NeverLost(env: Env, v: View, g: Box) {
    forall ops: seq<Op> :: (forall op <- ops :: StaysThere(op)) ==> Has(DoAll(Placed(env, v), ops).v, g)
  }

  /** Losing sequences: there and back, and along one axis first. */
  const THERE_AND_BACK: seq<Op> := [Maximize(Both), Maximize(NoAxis)]
  const WIDTH_FIRST: seq<Op> := [Maximize(Horizontal), Maximize(Both)]
  const HEIGHT_FIRST: seq<Op> := [Maximize(Vertical), Maximize(Both)]

  lemma DoTwo(p: Placed, a: Op, b: Op)
    ensures DoAll(p, [a, b]) == Do(Do(p, a), b)
  {
    assert [a, b][1..] == [b];
    assert DoAll(Do(p, a), [b]) == DoAll(Do(Do(p, a), b), [b][1..]);
  }

  lemma NotComingBackLoses(env: Env, v: View, g: Box)
    requires FloatsAt(v, g) && !ComesBack(env, g)
    ensures !Has(DoAll(Placed(env, v), THERE_AND_BACK).v, g)
  {
    DoTwo(Placed(env, v), Maximize(Both), Maximize(NoAxis));
    UnmaximizeRestoresIff(env, v, g);
  }

  lemma FreeAxisLoses(env: Env, v: View, g: Box)
    requires FloatsAt(v, g) && !KeepsFreeAxis(env, g)
    ensures !Has(DoAll(Placed(env, v), WIDTH_FIRST).v, g) || !Has(DoAll(Placed(env, v), HEIGHT_FIRST).v, g)
  {
    DoTwo(Placed(env, v), Maximize(Horizontal), Maximize(Both));
    DoTwo(Placed(env, v), Maximize(Vertical), Maximize(Both));
    MaximizeTwiceRemembersIff(env, v, g);
  }

  /**
   The floating geometry of a window is safe from every sequence of operations on its output if and only if
   it comes back there unchanged and maximizing along one axis leaves the other alone.
   */
  lemma NeverLostIff(env: Env, v: View, g: Box)
    requires FloatsAt(v, g)
    ensures NeverLost(env, v, g) <==> ComesBack(env, g) && KeepsFreeAxis(env, g)
  {
    if NeverLost(env, v, g) {
      assert Has(DoAll(Placed(env, v), THERE_AND_BACK).v, g);
      assert Has(DoAll(Placed(env, v), WIDTH_FIRST).v, g) && Has(DoAll(Placed(env, v), HEIGHT_FIRST).v, g);
      if !ComesBack(env, g) {
        NotComingBackLoses(env, v, g);
      }
      if !KeepsFreeAxis(env, g) {
        FreeAxisLoses(env, v, g);
      }
    }
    if ComesBack(env, g) && KeepsFreeAxis(env, g) {
      forall ops: seq<Op> | forall op <- ops :: StaysThere(op) ensures Has(DoAll(Placed(env, v), ops).v, g) {
        FloatingGeometryIsNeverLost(Placed(env, v), g, ops);
      }
    }
  }
}
