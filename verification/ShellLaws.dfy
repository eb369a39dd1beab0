/** What one commit, request and timeout of an xdg-shell view come to, in terms of sizes and edges (src/xdg.c). */
module ShellLaws {

  import opened Options
  import opened Geometry
  import opened Edges
  import opened SnapConstraints
  import opened XdgShell

  // ---- sizes ----

  predicate HasSize(b: Box, size: Size) {
    b.width == size.width && b.height == size.height
  }

  /**
   The committed size is that of the window geometry, unless the surface extends over exactly the requested size:
   a client whose window geometry lags behind gets what it was asked for.
   */
  lemma CommittedSize(env: Env, s: State, c: Commit)
    requires !s.pending.Empty()
    ensures var t := Committed(env, s, c);
            if HasSize(s.pending, c.extent) then HasSize(t.current, c.extent) else HasSize(t.current, c.size)
  {
  }

  /** So the actual size is the committed one, or the requested one in that case. */
  lemma CommittedSizeIff(env: Env, s: State, c: Commit)
    requires !s.pending.Empty()
    ensures var t := Committed(env, s, c);
            && (HasSize(t.current, c.size) || (HasSize(t.current, c.extent) && HasSize(s.pending, c.extent)))
            && (!HasSize(t.current, c.size) <==> HasSize(s.pending, c.extent) && c.extent != c.size)
  {
  }

  // ---- positions ----

  /** The commit changes something: it acknowledges the outstanding request, or has another size than the window. */
  predicate Changes(s: State, t: State, c: Commit) {
    (s.serial > 0 && c.acked == s.serial) || t.current.width != s.current.width || t.current.height != s.current.height
  }

  /** The right edge is what a resize keeps: it is dragged on the left, or the request moves the left edge only. */
  predicate KeepsRight(env: Env, s: State) {
    Left in env.grab || (s.pending.x != s.current.x && s.pending.Right() == s.current.Right())
  }

  predicate KeepsBottom(env: Env, s: State) {
    Top in env.grab || (s.pending.y != s.current.y && s.pending.Bottom() == s.current.Bottom())
  }

  /** A commit puts the window at the requested position, or at the requested far edge where that is to be kept. */
  lemma CommittedPosition(env: Env, s: State, c: Commit)
    requires !s.pending.Empty() && !env.fullscreen
    ensures var t := Committed(env, s, c);
            if Changes(s, t, c) then
              && (if KeepsRight(env, s) then t.current.Right() == s.pending.Right() else t.current.x == s.pending.x)
              && (if KeepsBottom(env, s) then t.current.Bottom() == s.pending.Bottom() else t.current.y == s.pending.y)
            else t.current == s.current
  {
  }

  /** The request is over when it is acknowledged; with none outstanding a change is a request of its own. */
  lemma CommittedRequest(env: Env, s: State, c: Commit)
    requires !s.pending.Empty() && !env.fullscreen
    ensures var t := Committed(env, s, c);
            && (t.serial == 0 <==> s.serial == 0 || s.serial == c.acked)
            && (t.serial != 0 ==> t.serial == s.serial)
            && t.timer == (s.timer && (s.serial == 0 || s.serial != c.acked))
            && t.pending == if t.serial == 0 && Changes(s, t, c) then t.current else s.pending
  {
  }

  /** The first commit of a view without a size gives it that size at its initial position. */
  lemma FirstCommitPlaces(env: Env, s: State, c: Commit, offer: nat, x: int, y: int)
    requires s.pending.Empty() && c.size.width > 0 && c.size.height > 0 && !env.fullscreen
    requires c.initial == Place(None, offer, x, y)
    ensures Committed(env, s, c).current == Box(x, y, c.size.width, c.size.height)
  {
  }

  /** A commit without a size places nothing: no initial position is looked for. */
  lemma EmptyCommitWaits(env: Env, s: State, c: Commit, initial: Initial)
    requires c.size.width <= 0 || c.size.height <= 0
    ensures Committed(env, s, c) == Committed(env, s, c.(initial := initial))
  {
  }

  /** If that is too large, the view is asked for a smaller one and placed all the same. */
  lemma FirstCommitConstrains(env: Env, s: State, c: Commit, small: Box, offer: nat, x: int, y: int)
    requires s.pending.Empty() && s.serial == 0 && c.size.width > 0 && c.size.height > 0 && !env.fullscreen && env.grab == {}
    requires c.initial == Place(Some(small), offer, x, y) && env.initialized && offer > 0 && c.acked != offer
    requires !small.Empty() && !HasSize(small, c.size) && !HasSize(small, c.extent)
    ensures var t := Committed(env, s, c);
            && t.serial == offer && t.timer && t.pending == small.(x := x, y := y)
            && HasSize(t.current, c.size) && (t.current.x == x || t.current.Right() == x + small.width)
  {
  }

  // ---- requests ----

  /**
   A request becomes outstanding exactly if it has a size, another one than the last request, and the surface is
   ready; otherwise the window is moved at once, unless an earlier request is outstanding.
   */
  lemma ConfiguredIff(env: Env, s: State, geo: Box, offer: nat)
    requires offer > 0 && offer != s.serial && !env.fullscreen
    ensures var t := Configured(env, s, geo, offer);
            && t.pending == geo && t.hit == s.hit
            && (t.serial == offer <==>
                  env.initialized && !geo.Empty() && (geo.width != s.pending.width || geo.height != s.pending.height))
            && (t.serial != offer ==> t.serial == s.serial && t.timer == s.timer)
            && (t.serial == offer ==> t.timer)
            && t.current.width == s.current.width && t.current.height == s.current.height
            && (if t.serial == 0 then t.current.x == geo.x && t.current.y == geo.y else t.current == s.current)
  {
  }

  // ---- timeouts ----

  /** A timeout keeps the size, moves the window to the requested position, or to a fallback if there is none, and gives up the request. */
  lemma TimedOutIs(env: Env, s: State)
    requires env.mapped && !env.fullscreen
    ensures var t := TimedOut(env, s);
            && t.serial == 0 && !t.timer && t.pending == t.current
            && t.current.width == s.current.width && t.current.height == s.current.height
            && (!s.pending.Empty() ==> t.current.x == s.pending.x && t.current.y == s.pending.y)
            && (s.pending.Empty() && env.output.usable ==>
                  t.current.x - env.output.area.x == 100 && t.current.y - env.output.area.y == 100)
            && (s.pending.Empty() && !env.output.usable ==> t.current.x == 100 && t.current.y == 100)
  {
  }

  // ---- fullscreen ----

  predicate Centred(b: Box, on: Box) {
    CentredOn(b.x, b.width, on.x, on.width) && CentredOn(b.y, b.height, on.y, on.height)
  }

  /** Whatever size a fullscreen client commits, it ends up centred on its output, and so does it after a timeout. */
  lemma FullscreenIsCentred(env: Env, s: State, c: Commit)
    requires env.fullscreen && env.output.usable && env.mapped && !s.pending.Empty()
    ensures var t := Committed(env, s, c); Changes(s, t, c) ==> Centred(t.current, env.outputBox)
    ensures Centred(TimedOut(env, s).current, env.outputBox)
  {
  }
}
