/** The cache that lets repeated resizes pass an edge which the client rounded away from (src/snap-constraints.c). */
module SnapConstraints {
  import opened Options
  import opened Geometry
  import opened Edges

  /** last_snap_hit */
  datatype Hit = Hit(view: Option<nat>, pending: bool, vertical: int, horizontal: int, sides: set<Side>, geom: Box)

  const NO_HIT := Hit(None, false, INT_MIN, INT_MIN, {}, Box(0, 0, 0, 0))

  /** snap_constraints_are_valid */
  predicate Valid(hit: Hit, view: nat, sides: set<Side>, pending: Box) {
    && hit.view == Some(view)
    && sides == hit.sides
    && (if sides * {Left, Right} != {} then
          Bounded(hit.horizontal) && !({Left, Right} <= sides)
        else if sides * {Top, Bottom} != {} then
          Bounded(hit.vertical) && !({Top, Bottom} <= sides)
        else false)
    && pending == hit.geom
  }

  /** snap_constraints_set */
  function Recorded(view: nat, sides: set<Side>, geom: Box): Hit {
    Hit(Some(view), true,
        if Top in sides then geom.y else if Bottom in sides then geom.Bottom() else INT_MIN,
        if Left in sides then geom.x else if Right in sides then geom.Right() else INT_MIN,
        sides, geom)
  }

  /** snap_constraints_update */
  function Updated(hit: Hit, view: nat, pending: Box, current: Box): Hit {
    if hit.view != Some(view) || !hit.pending || pending.width != hit.geom.width || pending.height != hit.geom.height then hit
    else hit.(geom := current, pending := false)
  }

  /** snap_constraints_effective; `base` is the pending or the current geometry. */
  function Effective(hit: Hit, view: nat, sides: set<Side>, pending: Box, base: Box): Box {
    if !Valid(hit, view, sides, pending) then base
    else
      var g1 :=
        if Left in sides then base.(x := hit.horizontal)
        else if Right in sides then base.(width := hit.horizontal - base.x)
        else base;
      var g2 :=
        if Top in sides then g1.(y := hit.vertical)
        else if Bottom in sides then g1.(height := hit.vertical - g1.y)
        else g1;
      if !Bounded(g2.x) || !Bounded(g2.y) then base
      else if g2.width <= 0 || g2.height <= 0 then base
      else g2
  }

  /** The static record of the file. */
  class LastSnapHit {
    var hit: Hit

    constructor ()
      ensures hit == NO_HIT
    {
      hit := NO_HIT;
    }

    method Reset()
      modifies this
      ensures hit == NO_HIT
    {
      hit := NO_HIT;
    }

    method Invalidate(view: nat)
      modifies this
      ensures hit == if old(hit).view == Some(view) then NO_HIT else old(hit)
    {
      if hit.view == Some(view) {
        Reset();
      }
    }

    method Set(view: nat, sides: set<Side>, geom: Box)
      modifies this
      ensures hit == Recorded(view, sides, geom)
    {
      var horizontal := INT_MIN;
      if Left in sides {
        horizontal := geom.x;
      } else if Right in sides {
        horizontal := geom.x + geom.width;
      }
      var vertical := INT_MIN;
      if Top in sides {
        vertical := geom.y;
      } else if Bottom in sides {
        vertical := geom.y + geom.height;
      }
      hit := hit.(vertical := vertical, horizontal := horizontal);
      hit := hit.(view := Some(view), sides := sides, geom := geom);
      hit := hit.(pending := true);
    }

    method Update(view: nat, pending: Box, current: Box)
      modifies this
      ensures hit == Updated(old(hit), view, pending, current)
    {
      if hit.view != Some(view) {
        return;
      }
      if !hit.pending {
        return;
      }
      if pending.width != hit.geom.width {
        return;
      }
      if pending.height != hit.geom.height {
        return;
      }
      hit := hit.(geom := current);
      hit := hit.(pending := false);
    }
  }
}
