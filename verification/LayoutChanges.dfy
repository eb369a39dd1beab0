/** Where a floating window goes when outputs come, go or move (src/view.c, src/output.c). */
module LayoutChanges {

  import opened Options
  import opened Geometry

  /** A usable output: its place in the layout, and its whole box and usable area in layout coordinates. */
  datatype Screen = Screen(id: nat, name: string, x: int, y: int, box: Box, usable: Box)

  /**
   What an adjustment reads besides the window's own fields: the usable outputs in order, the output nearest to a
   point, where the placement policy puts a window, the decorations, and whether the window must not be moved.
   */
  datatype Layout = Layout(screens: seq<Screen>, nearest: (int, int) -> Option<nat>, place: (nat, Box) -> (int, int),
                           margin: Border, pinned: bool)

  /** last_placement */
  datatype Saved = Saved(name: string, relative: Box, global: Box)

  datatype View = View(pending: Box, output: Option<nat>, saved: Saved)

  function Lower(c: char): char {
    if 'A' <= c <= 'Z' then (c as int + 32) as char else c
  }

  predicate SameName(a: string, b: string) {
    |a| == |b| && forall i :: 0 <= i < |a| ==> Lower(a[i]) == Lower(b[i])
  }

  /** The characters are the same, or upper and lower case of one letter. */
  predicate SameLetter(c: char, d: char) {
    || c == d
    || ('A' <= c <= 'Z' && d as int - c as int == 'a' as int - 'A' as int)
    || ('A' <= d <= 'Z' && c as int - d as int == 'a' as int - 'A' as int)
  }

  lemma SameNameIff(a: string, b: string)
    ensures SameName(a, b) <==> |a| == |b| && forall i :: 0 <= i < |a| ==> SameLetter(a[i], b[i])
  {
    forall i | 0 <= i < |a| && i < |b| ensures Lower(a[i]) == Lower(b[i]) <==> SameLetter(a[i], b[i]) {
    }
  }

  /** The output at k is the first one with that name. */
  predicate FirstNamed(screens: seq<Screen>, name: string, k: nat) {
    k < |screens| && SameName(name, screens[k].name) && forall i :: 0 <= i < k ==> !SameName(name, screens[i].name)
  }

  /** output_from_name */
  function FromName(screens: seq<Screen>, name: string): (r: Option<Screen>)
    ensures r.Some? ==> r.value in screens && SameName(name, r.value.name)
    ensures r.Some? ==> exists k: nat :: FirstNamed(screens, name, k) && screens[k] == r.value
    ensures r.None? ==> forall sc <- screens :: !SameName(name, sc.name)
  {
    if screens == [] then None
    else if SameName(name, screens[0].name) then
      assert FirstNamed(screens, name, 0);
      Some(screens[0])
    else
      assert forall k: nat :: FirstNamed(screens[1..], name, k) ==> FirstNamed(screens, name, k + 1);
      FromName(screens[1..], name)
  }

  function WithId(screens: seq<Screen>, id: nat): (r: Option<Screen>)
    ensures r.Some? ==> r.value in screens && r.value.id == id
    ensures r.None? ==> forall sc <- screens :: sc.id != id
  {
    if screens == [] then None else if screens[0].id == id then Some(screens[0]) else WithId(screens[1..], id)
  }

  /** The output of a view, if it can be used. */
  function Usable(l: Layout, output: Option<nat>): Option<Screen> {
    if output.Some? then WithId(l.screens, output.value) else None
  }

  function Shifted(b: Box, dx: int, dy: int): Box {
    b.(x := b.x + dx, y := b.y + dy)
  }

  // ---- adjust_floating_geometry, with midpoint visibility ----

  predicate TitleInside(l: Layout, sc: Screen, b: Box) {
    b.x >= sc.usable.x + l.margin.left && b.y >= sc.usable.y + l.margin.top
  }

  function TitleMoved(l: Layout, sc: Screen, b: Box): Box {
    b.(x := Max(b.x, sc.usable.x + l.margin.left), y := Max(b.y, sc.usable.y + l.margin.top))
  }

  predicate MidpointInside(sc: Screen, b: Box) {
    b.x + Half(b.width) <= sc.usable.Right() && b.y + Half(b.height) <= sc.usable.Bottom()
  }

  /** What is left of the box when its title bar has been moved in, and whether that is on the screen. */
  function Candidate(l: Layout, sc: Screen, b: Box): (Box, bool) {
    if sc.box.Intersects(b) then (TitleMoved(l, sc, b), MidpointInside(sc, TitleMoved(l, sc, b))) else (b, false)
  }

  function Adjusted(l: Layout, sc: Screen, b: Box): Box {
    if l.pinned then b
    else
      var (c, onscreen) := Candidate(l, sc, b);
      if onscreen then c else var (x, y) := l.place(sc.id, c); c.(x := x, y := y)
  }

  // ---- the two operations ----

  /** view_save_last_placement */
  function Remembered(l: Layout, v: View): View {
    match Usable(l, v.output)
    case None => v
    case Some(sc) => v.(saved := Saved(sc.name, Shifted(v.pending, -sc.x, -sc.y), v.pending))
  }

  /** view_move_resize on behalf of the user */
  function Moved(l: Layout, v: View, geo: Box): View {
    Remembered(l, v.(pending := geo))
  }

  function Discovered(l: Layout, b: Box, output: Option<nat>): Option<nat> {
    var o := l.nearest(b.x + Half(b.width), b.y + Half(b.height));
    if o.Some? then o else output
  }

  /** The output and the geometry that the last placement leads to; `output` is the present output. */
  function Target(l: Layout, saved: Saved, output: Option<nat>): (Option<nat>, Box) {
    match FromName(l.screens, saved.name)
    case Some(sc) => (Some(sc.id), Fitted(l, Some(sc.id), Shifted(saved.relative, sc.x, sc.y)))
    case None => (Discovered(l, saved.global, output), Fitted(l, Discovered(l, saved.global, output), saved.global))
  }

  function Fitted(l: Layout, output: Option<nat>, b: Box): Box {
    match Usable(l, output)
    case None => b
    case Some(sc) => Adjusted(l, sc, b)
  }

  /** view_adjust_for_layout_change */
  function Arranged(l: Layout, v: View): View {
    if v.saved.global.Empty() then v
    else
      var (output, geo) := Target(l, v.saved, v.output);
      v.(output := output, pending := geo)
  }

  class XdgView {
    var pending: Box
    var output: Option<nat>
    var saved: Saved
    var adjusting: bool

    constructor ()
      ensures Abs() == View(Box(0, 0, 0, 0), None, Saved("", Box(0, 0, 0, 0), Box(0, 0, 0, 0))) && !adjusting
    {
      pending, output := Box(0, 0, 0, 0), None;
      saved, adjusting := Saved("", Box(0, 0, 0, 0), Box(0, 0, 0, 0)), false;
    }

    function Abs(): View
      reads this
    {
      View(pending, output, saved)
    }

    method SaveLastPlacement(l: Layout)
      modifies this`saved
      ensures Abs() == Remembered(l, old(Abs()))
    {
      var screen := Usable(l, output);
      if screen.None? {
        return;
      }
      var relative := pending;
      relative := relative.(x := relative.x - screen.value.x);
      relative := relative.(y := relative.y - screen.value.y);
      saved := Saved(screen.value.name, relative, pending);
    }

    method AdjustFloatingGeometry(l: Layout, geometry: Box) returns (geo: Box)
      ensures geo == Fitted(l, output, geometry)
    {
      geo := geometry;
      var screen := Usable(l, output);
      if screen.None? || l.pinned {
        return;
      }
      var sc := screen.value;
      var onscreen := false;
      if sc.box.Intersects(geo) {
        if geo.x < sc.usable.x + l.margin.left {
          geo := geo.(x := sc.usable.x + l.margin.left);
        }
        if geo.y < sc.usable.y + l.margin.top {
          geo := geo.(y := sc.usable.y + l.margin.top);
        }
        onscreen := MidpointInside(sc, geo);
      }
      if onscreen {
        return;
      }
      var (x, y) := l.place(sc.id, geo);
      geo := geo.(x := x, y := y);
    }

    method MoveResize(l: Layout, geo: Box)
      modifies this`pending, this`saved
      ensures Abs() == if adjusting then old(Abs()).(pending := geo) else Moved(l, old(Abs()), geo)
    {
      pending := geo;
      if !adjusting {
        SaveLastPlacement(l);
      }
    }

    /** For a window that floats. */
    method AdjustForLayoutChange(l: Layout)
      requires !adjusting
      modifies this
      ensures Abs() == Arranged(l, old(Abs())) && !adjusting
    {
      if saved.global.Empty() {
        return;
      }
      adjusting := true;
      var geo;
      var screen := FromName(l.screens, saved.name);
      if screen.Some? {
        geo := saved.relative;
        geo := geo.(x := geo.x + screen.value.x);
        geo := geo.(y := geo.y + screen.value.y);
        output := Some(screen.value.id);
      } else {
        output := Discovered(l, saved.global, output);
        geo := saved.global;
      }
      geo := AdjustFloatingGeometry(l, geo);
      MoveResize(l, geo);
      adjusting := false;
    }
  }

  // ---- runs without moves by the user ----

  /**
   A change of the layout, or anything else that writes the geometry or the output without saving a placement: a
   client's commit, a configure timeout, a layout change while the window does not float, or the discovery of its
   output after it has moved.
   */
  datatype Event = Change(layout: Layout) | Write(pending: Box, output: Option<nat>)

  function After(v: View, e: Event): View {
    match e
    case Change(l) => if v.pending.Empty() then v else Arranged(l, v)
    case Write(pending, output) => v.(pending := pending, output := output)
  }

  function Run(v: View, es: seq<Event>): View
    decreases |es|
  {
    if es == [] then v else Run(After(v, es[0]), es[1..])
  }

  lemma {:induction false} RunSplits(v: View, es: seq<Event>, e: Event)
    ensures Run(v, es + [e]) == After(Run(v, es), e)
    decreases |es|
  {
    if es == [] {
      assert es + [e] == [e];
      assert [e][1..] == [];
    } else {
      assert (es + [e])[0] == es[0] && (es + [e])[1..] == es[1..] + [e];
      RunSplits(After(v, es[0]), es[1..], e);
    }
  }

  /** The name of the output is saved, and where the window is on it. */
  predicate SavedOn(saved: Saved, sc: Screen, geo: Box) {
    saved.name == sc.name && saved.relative == Box(geo.x - sc.x, geo.y - sc.y, geo.width, geo.height)
  }

  /** A move by the user puts the window where it is told, and saves that place on an output that can be used. */
  lemma MoveIsSaved(l: Layout, v: View, geo: Box)
    ensures Moved(l, v, geo).pending == geo && Moved(l, v, geo).output == v.output
    ensures v.output.Some? && (exists sc <- l.screens :: sc.id == v.output.value) ==>
              var t := Moved(l, v, geo).saved;
              && t.global == geo
              && exists sc <- l.screens :: SavedOn(t, sc, geo) && sc.id == v.output.value
    ensures v.output == None || (forall sc <- l.screens :: sc.id != v.output.value) ==> Moved(l, v, geo).saved == v.saved
  {
  }

  lemma {:induction false} PlacementIsKept(v: View, es: seq<Event>)
    ensures Run(v, es).saved == v.saved
    decreases |es|
  {
    if es != [] {
      PlacementIsKept(After(v, es[0]), es[1..]);
    }
  }

  /** The layout names an output for the window, whatever its present one. */
  predicate Decides(l: Layout, saved: Saved) {
    FromName(l.screens, saved.name).Some? || Discovered(l, saved.global, None).Some?
  }

  /** Only the last layout counts: where the window has been on the way leaves no trace. */
  lemma OnlyTheLastLayoutCounts(v: View, es: seq<Event>, fs: seq<Event>, l: Layout)
    requires !v.saved.global.Empty() && !Run(v, es).pending.Empty() && !Run(v, fs).pending.Empty()
    requires Decides(l, v.saved)
    ensures Run(v, es + [Change(l)]) == Run(v, fs + [Change(l)])
  {
    RunSplits(v, es, Change(l));
    RunSplits(v, fs, Change(l));
    PlacementIsKept(v, es);
    PlacementIsKept(v, fs);
  }

  /** The window stays where it is: it is pinned, it is on the screen, or the placement policy has no better place. */
  ghost predicate Undisturbed(l: Layout, sc: Screen, b: Box) {
    || l.pinned
    || (sc.box.Intersects(b) && TitleInside(l, sc, b) && MiddleInside(sc, b))
    || (!sc.box.Intersects(b) && l.place(sc.id, b) == (b.x, b.y))
    || (sc.box.Intersects(b) && exists c :: Nudged(l, sc, b, c) && !MiddleInside(sc, c) && l.place(sc.id, c) == (b.x, b.y))
  }

  /** The middle of the window, rounded up and left, is not right of or below the usable area. */
  predicate MiddleInside(sc: Screen, b: Box) {
    2 * (sc.usable.Right() - b.x) >= b.width - 1 && 2 * (sc.usable.Bottom() - b.y) >= b.height - 1
  }

  /** c is b moved right and down, no further than its title bar needs to start inside the usable area. */
  predicate Nudged(l: Layout, sc: Screen, b: Box, c: Box) {
    && c.width == b.width && c.height == b.height && TitleInside(l, sc, c)
    && c.x >= b.x && (c.x == b.x || c.x - l.margin.left == sc.usable.x)
    && c.y >= b.y && (c.y == b.y || c.y - l.margin.top == sc.usable.y)
  }

  lemma MiddleIs(sc: Screen, b: Box)
    requires b.width >= 0 && b.height >= 0
    ensures MidpointInside(sc, b) <==> MiddleInside(sc, b)
  {
  }

  /** Where a window that must not stay ends: nudged onto the screen if that is enough, and else where the policy puts it. */
  lemma AdjustedIs(l: Layout, sc: Screen, b: Box, c: Box)
    requires !l.pinned && !b.Empty() && Nudged(l, sc, b, c)
    ensures var g := Adjusted(l, sc, b);
            if !sc.box.Intersects(b) then g == b.(x := l.place(sc.id, b).0, y := l.place(sc.id, b).1)
            else if MiddleInside(sc, c) then g == c
            else g == c.(x := l.place(sc.id, c).0, y := l.place(sc.id, c).1)
  {
    MiddleIs(sc, c);
  }

  lemma AdjustedKeepsIff(l: Layout, sc: Screen, b: Box)
    requires !b.Empty()
    ensures Adjusted(l, sc, b) == b <==> Undisturbed(l, sc, b)
  {
    var c := TitleMoved(l, sc, b);
    assert Nudged(l, sc, b, c);
    forall d | Nudged(l, sc, b, d) ensures d == c {
    }
    if !l.pinned {
      AdjustedIs(l, sc, b, c);
      MiddleIs(sc, b);
    }
  }

  /** An output that FromName finds is the one with its number. */
  predicate Numbered(l: Layout) {
    forall i, j :: 0 <= i < j < |l.screens| ==> l.screens[i].id != l.screens[j].id
  }

  lemma {:induction false} FoundById(screens: seq<Screen>, sc: Screen)
    requires sc in screens && forall i, j :: 0 <= i < j < |screens| ==> screens[i].id != screens[j].id
    ensures WithId(screens, sc.id) == Some(sc)
  {
    if screens[0] != sc {
      var k :| 0 < k < |screens| && screens[k] == sc;
      FoundById(screens[1..], sc);
    }
  }

  /**
   A window placed on an output comes back to its place on that output, wherever the output has gone, exactly if
   the window is left undisturbed there. No matter what happened in between.
   */
  lemma ComesBackIff(l0: Layout, v: View, home: Screen, es: seq<Event>, l: Layout, sc: Screen)
    requires Usable(l0, v.output) == Some(home) && !v.pending.Empty()
    requires Numbered(l) && FromName(l.screens, home.name) == Some(sc)
    requires !Run(Remembered(l0, v), es).pending.Empty()
    ensures var place := Box(v.pending.x - home.x + sc.x, v.pending.y - home.y + sc.y, v.pending.width, v.pending.height);
            var w := Run(Remembered(l0, v), es + [Change(l)]);
            w.output == Some(sc.id) && (w.pending == place <==> Undisturbed(l, sc, place))
  {
    var place := Shifted(v.pending, sc.x - home.x, sc.y - home.y);
    RunSplits(Remembered(l0, v), es, Change(l));
    PlacementIsKept(Remembered(l0, v), es);
    assert Shifted(Remembered(l0, v).saved.relative, sc.x, sc.y) == place;
    FoundById(l.screens, sc);
    AdjustedKeepsIff(l, sc, place);
  }

  /** While that output is missing the window keeps its place in the layout exactly if it is left undisturbed there. */
  lemma StaysWithoutOutputIff(l0: Layout, v: View, home: Screen, es: seq<Event>, l: Layout)
    requires Usable(l0, v.output) == Some(home) && !v.pending.Empty()
    requires FromName(l.screens, home.name) == None
    requires !Run(Remembered(l0, v), es).pending.Empty()
    ensures var w := Run(Remembered(l0, v), es + [Change(l)]);
            w.pending == v.pending <==> Usable(l, w.output) == None || Undisturbed(l, Usable(l, w.output).value, v.pending)
  {
    RunSplits(Remembered(l0, v), es, Change(l));
    PlacementIsKept(Remembered(l0, v), es);
    var w := Run(Remembered(l0, v), es + [Change(l)]);
    if Usable(l, w.output).Some? {
      AdjustedKeepsIff(l, Usable(l, w.output).value, v.pending);
    }
  }

  /** Then it is given to the output nearest to its middle, if there is one, and else keeps the one it has. */
  lemma EvacuatedToNearest(l: Layout, v: View)
    requires !v.saved.global.Empty() && FromName(l.screens, v.saved.name) == None
    ensures var o := l.nearest(v.saved.global.x + v.saved.global.width / 2, v.saved.global.y + v.saved.global.height / 2);
            Arranged(l, v).output == if o == None then v.output else o
  {
  }

  /** A move by the user while the window's output cannot be used leaves no trace after the next layout change. */
  lemma MoveWithoutOutputIsForgotten(l0: Layout, v: View, geo: Box, es: seq<Event>, l: Layout)
    requires Usable(l0, v.output) == None && !v.saved.global.Empty() && Decides(l, v.saved)
    requires !Run(v, es).pending.Empty() && !Run(Moved(l0, v, geo), es).pending.Empty()
    ensures Run(Moved(l0, v, geo), es + [Change(l)]) == Run(v, es + [Change(l)])
  {
    RunSplits(v, es, Change(l));
    RunSplits(Moved(l0, v, geo), es, Change(l));
    PlacementIsKept(v, es);
    PlacementIsKept(Moved(l0, v, geo), es);
  }
}
