/** The configure/acknowledge protocol of an xdg-shell view (src/xdg.c, src/view-impl-common.c). */
module XdgShell {
  import opened Options
  import opened Geometry
  import opened Edges
  import opened SnapConstraints

  const FALLBACK_X := 100
  const FALLBACK_Y := 100

  /** Edges of this view that an interactive resize holds; empty when there is no such resize. */
  type Grab = set<Side>

  /** What stays the same while events are handled. */
  datatype Env = Env(id: nat, grab: Grab, fullscreen: bool, output: Output, outputBox: Box, initialized: bool, mapped: bool)

  datatype State = State(pending: Box, current: Box, serial: nat, timer: bool, hit: Hit)
  {
    /** The timer runs exactly while a configure request is outstanding. */
    predicate TimerOk() {
      timer <==> serial > 0
    }

    /** With nothing outstanding the geometries agree, or the client has been asked to choose a size. */
    predicate Synced() {
      serial == 0 ==> pending == current || pending.Empty()
    }
  }

  /** view_impl_apply_geometry, on one axis: the new coordinate for a committed size. */
  function AnchorAxis(held: bool, cur: int, curSize: int, pend: int, pendSize: int, size: int): int {
    if held || (cur != pend && cur + curSize == pend + pendSize) then pend + pendSize - size else pend
  }

  function ApplyGeometry(grab: Grab, current: Box, pending: Box, w: int, h: int): Box {
    Box(AnchorAxis(Left in grab, current.x, current.width, pending.x, pending.width, w),
        AnchorAxis(Top in grab, current.y, current.height, pending.y, pending.height, h),
        w, h)
  }

  /** center_fullscreen_if_needed */
  function CenterFullscreen(env: Env, s: State): State {
    if !env.fullscreen || !env.output.usable then s
    else
      var x := CenterAxis(s.current.width, env.outputBox.x, env.outputBox.width);
      var y := CenterAxis(s.current.height, env.outputBox.y, env.outputBox.height);
      s.(current := s.current.(x := x, y := y), pending := s.pending.(x := x, y := y))
  }

  /** set_pending_configure_serial */
  function Outstanding(s: State, serial: nat): State {
    s.(serial := serial, timer := true)
  }

  /** xdg_toplevel_view_configure; `offer` is the serial that wlroots would give a new request. */
  function Configured(env: Env, s: State, geo: Box, offer: nat): State {
    var sent := (geo.width != s.pending.width || geo.height != s.pending.height)
                && env.initialized && geo.width > 0 && geo.height > 0;
    var s1 := s.(pending := geo);
    if sent && offer > 0 then Outstanding(s1, offer)
    else if s.serial == 0 then CenterFullscreen(env, s1.(current := s1.current.(x := geo.x, y := geo.y)))
    else s1
  }

  datatype Size = Size(width: int, height: int)

  /**
   set_initial_position: nothing for views that do not float; otherwise the size may be constrained to the
   usable area, which is a move-resize of its own, and then a position is written into pending.
   */
  datatype Initial = Keep | Place(constrain: Option<Box>, offer: nat, x: int, y: int)

  function Positioned(env: Env, s: State, initial: Initial): State {
    match initial
    case Keep => s
    case Place(constrain, offer, x, y) =>
      var s1 := if constrain.Some? then Configured(env, s, constrain.value, offer) else s;
      s1.(pending := s1.pending.(x := x, y := y))
  }

  /** A commit: the window geometry, the surface extent, and the serial the client has acknowledged. */
  datatype Commit = Commit(size: Size, extent: Size, acked: nat, initial: Initial)

  predicate NeedsPosition(s: State, size: Size) {
    s.pending.Empty() && !(size.width <= 0 || size.height <= 0)
  }

  /** The state in which the size of a commit is judged. */
  function BeforeApply(env: Env, s: State, c: Commit): State {
    if NeedsPosition(s, c.size) then
      Positioned(env, s.(pending := s.pending.(width := c.size.width, height := c.size.height)), c.initial)
    else s
  }

  /** The size a commit stands for, with the workaround for outdated window geometry. */
  function TrueSize(pending: Box, c: Commit): Size {
    if (c.size.width != pending.width || c.size.height != pending.height)
       && c.extent.width == pending.width && c.extent.height == pending.height
    then c.extent else c.size
  }

  /** handle_commit, after the initial commit */
  function Committed(env: Env, s: State, c: Commit): State {
    var s1 := BeforeApply(env, s, c);
    var size := TrueSize(s1.pending, c);
    var acks := s1.serial > 0 && s1.serial == c.acked;
    var update := NeedsPosition(s, c.size) || s1.current.width != size.width || s1.current.height != size.height || acks;
    var s2 := if acks then s1.(serial := 0, timer := false) else s1;
    if update then Applied(env, s2, size) else s2
  }

  /** The update at the end of handle_commit. */
  function Applied(env: Env, s: State, size: Size): State {
    var s1 := CenterFullscreen(env, s.(current := ApplyGeometry(env.grab, s.current, s.pending, size.width, size.height)));
    if s1.serial == 0 then Resynced(env, s1) else s1
  }

  /** The pending geometry follows the actual one. */
  function Resynced(env: Env, s: State): State {
    s.(hit := Updated(s.hit, env.id, s.pending, s.current), pending := s.current)
  }

  /** handle_configure_timeout */
  function TimedOut(env: Env, s: State): State {
    var s1 := s.(serial := 0, timer := false);
    if !env.mapped then s1
    else
      var s2 :=
        if s1.pending.Empty() || s1.pending.x != s1.current.x || s1.pending.y != s1.current.y then
          var p :=
            if s1.pending.Empty() then
              s1.pending.(x := FALLBACK_X + (if env.output.usable then env.output.area.x else 0),
                          y := FALLBACK_Y + (if env.output.usable then env.output.area.y else 0))
            else s1.pending;
          s1.(pending := p, current := s1.current.(x := p.x, y := p.y))
        else s1;
      Resynced(env, CenterFullscreen(env, s2))
  }

  // ---- the handlers ----

  class XdgView {
    const env: Env
    const snap: LastSnapHit
    var pending: Box
    var current: Box
    var serial: nat
    var timer: bool

    constructor (env: Env, snap: LastSnapHit, geometry: Box)
      ensures this.env == env && this.snap == snap
      ensures Abs() == State(geometry, geometry, 0, false, snap.hit)
    {
      this.env, this.snap := env, snap;
      pending, current, serial, timer := geometry, geometry, 0, false;
    }

    ghost function Abs(): State
      reads this, snap
    {
      State(pending, current, serial, timer, snap.hit)
    }

    method SetPendingSerial(serial: nat)
      modifies this`serial, this`timer
      ensures Abs() == Outstanding(old(Abs()), serial)
    {
      this.serial := serial;
      if !timer {
        timer := true;
      }
    }

    method ApplyCommittedSize(w: int, h: int)
      modifies this`current
      ensures Abs() == old(Abs()).(current := ApplyGeometry(env.grab, old(current), pending, w, h))
    {
      if Left in env.grab || (current.x != pending.x && current.x + current.width == pending.x + pending.width) {
        current := current.(x := pending.x + pending.width - w);
      } else {
        current := current.(x := pending.x);
      }
      if Top in env.grab || (current.y != pending.y && current.y + current.height == pending.y + pending.height) {
        current := current.(y := pending.y + pending.height - h);
      } else {
        current := current.(y := pending.y);
      }
      current := current.(width := w);
      current := current.(height := h);
    }

    method CenterIfFullscreen()
      modifies this`current, this`pending
      ensures Abs() == CenterFullscreen(env, old(Abs()))
    {
      if !env.fullscreen || !env.output.usable {
        return;
      }
      current := current.(x := CenterAxis(current.width, env.outputBox.x, env.outputBox.width),
                          y := CenterAxis(current.height, env.outputBox.y, env.outputBox.height));
      pending := pending.(x := current.x);
      pending := pending.(y := current.y);
    }

    method Configure(geo: Box, offer: nat)
      modifies this
      ensures Abs() == Configured(env, old(Abs()), geo, offer)
    {
      var sent := 0;
      if geo.width != pending.width || geo.height != pending.height {
        if env.initialized {
          if geo.width > 0 && geo.height > 0 {
            sent := offer;
          }
        }
      }
      pending := geo;
      if sent > 0 {
        SetPendingSerial(sent);
      } else if serial == 0 {
        current := current.(x := geo.x);
        current := current.(y := geo.y);
        CenterIfFullscreen();
      }
    }

    method SetInitialPosition(initial: Initial)
      modifies this
      ensures Abs() == Positioned(env, old(Abs()), initial)
    {
      match initial
      case Keep =>
      case Place(constrain, offer, x, y) =>
        if constrain.Some? {
          Configure(constrain.value, offer);
        }
        pending := pending.(x := x, y := y);
    }

    method Resync()
      modifies this`pending, snap
      ensures Abs() == Resynced(env, old(Abs()))
    {
      snap.Update(env.id, pending, current);
      pending := current;
    }

    method PositionIfUnplaced(c: Commit) returns (placed: bool)
      modifies this
      ensures placed == NeedsPosition(old(Abs()), c.size)
      ensures Abs() == BeforeApply(env, old(Abs()), c)
    {
      placed := (pending.width <= 0 || pending.height <= 0) && !(c.size.width <= 0 || c.size.height <= 0);
      if placed {
        pending := pending.(width := c.size.width, height := c.size.height);
        SetInitialPosition(c.initial);
      }
    }

    method Apply(size: Size)
      modifies this, snap
      ensures Abs() == Applied(env, old(Abs()), size)
    {
      ApplyCommittedSize(size.width, size.height);
      CenterIfFullscreen();
      if serial == 0 {
        Resync();
      }
    }

    method HandleCommit(c: Commit)
      modifies this, snap
      ensures Abs() == Committed(env, old(Abs()), c)
    {
      var size := c.size;
      var update := PositionIfUnplaced(c);
      if size.width != pending.width || size.height != pending.height {
        if c.extent.width == pending.width && c.extent.height == pending.height {
          size := c.extent;
        }
      }
      if current.width != size.width || current.height != size.height {
        update := true;
      }
      if serial > 0 && serial == c.acked {
        serial := 0;
        timer := false;
        update := true;
      }
      if update {
        Apply(size);
      }
    }

    method HandleTimeout()
      requires serial > 0 && timer
      modifies this, snap
      ensures Abs() == TimedOut(env, old(Abs()))
    {
      serial := 0;
      timer := false;
      if !env.mapped {
        return;
      }
      var empty := pending.Empty();
      if empty || pending.x != current.x || pending.y != current.y {
        if empty {
          pending := pending.(x := FALLBACK_X, y := FALLBACK_Y);
          if env.output.usable {
            pending := pending.(x := pending.x + env.output.area.x, y := pending.y + env.output.area.y);
          }
        }
        current := current.(x := pending.x);
        current := current.(y := pending.y);
      }
      CenterIfFullscreen();
      Resync();
    }
  }
}
