/** Minimizing with its effect on focus, and the show-desktop toggle (src/show-desktop.c, src/view.c, src/desktop.c). */
module ShowDesktop {
  import opened Options
  import opened Order
  import opened Stacking

  /** The mapped, focusable views of the current workspace, front to back, with their flags. */
  datatype Desk = Desk(views: seq<nat>, minimized: set<nat>, flags: set<nat>, showing: bool, active: Option<nat>)

  predicate WellFormed(f: Families, d: Desk) {
    && f.Sound() && Distinct(d.views)
    && forall v :: v in d.views ==> v in f.mapped && f.Root(v) in d.views
  }

  /** The views that are minimized together with v. */
  function Unit(f: Families, vs: seq<nat>, v: nat): set<nat> {
    Kids(f, vs, f.Root(v)) + {f.Root(v)}
  }

  /** The first modal dialog of a list. */
  function FirstModal(f: Families, s: seq<nat>): Option<nat> {
    if s == [] then None else if s[0] in f.modal then Some(s[0]) else FirstModal(f, s[1..])
  }

  /** Focus goes to the view, unless it has a modal dialog. */
  function FocusTarget(f: Families, vs: seq<nat>, v: nat): nat {
    if v in f.modal then v
    else match FirstModal(f, ChildList(f, vs, f.Root(v)))
      case Some(dialog) => dialog
      case None => v
  }

  /** show_desktop_reset */
  function Reset(d: Desk): Desk {
    d.(showing := false, flags := {})
  }

  /** desktop_focus_view, raising, for a view that is not minimized */
  function Focused(f: Families, d: Desk, v: nat): Desk {
    if d.views == [] then d
    else
      var vs := Raised(f, d.views, v);
      Reset(d.(views := vs, active := Some(FocusTarget(f, vs, v))))
  }

  /** desktop_focus_topmost_view */
  function FocusedTopmost(f: Families, d: Desk): Desk {
    var shown := Drop(d.views, d.minimized);
    if shown == [] then d.(active := None) else Focused(f, d, shown[0])
  }

  /** view_minimize */
  function Minimized(f: Families, d: Desk, v: nat, on: bool): Desk {
    var unit := Unit(f, d.views, v);
    if on then
      var d1 := d.(minimized := d.minimized + unit);
      if NeedsRefocus(f, unit, d.minimized, d.active, true) then FocusedTopmost(f, d1) else d1
    else
      var d1 := d.(minimized := d.minimized - unit);
      if NeedsRefocus(f, unit, d.minimized, d.active, false) then Focused(f, d1, v) else d1
  }

  /** minimize_views: from the last element to the first */
  function MinimizedAll(f: Families, d: Desk, s: seq<nat>, on: bool): Desk {
    if s == [] then d else Minimized(f, MinimizedAll(f, d, s[1..], on), s[0], on)
  }

  function Shown(d: Desk): seq<nat> {
    Drop(d.views, d.minimized)
  }

  /** show() */
  function ShowStep(f: Families, d: Desk): Desk {
    MinimizedAll(f, d.(flags := d.flags + Elements(Shown(d))), Shown(d), true).(showing := true)
  }

  /** restore() */
  function RestoreStep(f: Families, d: Desk): Desk {
    Reset(MinimizedAll(f, d, Keep(d.views, d.flags), false))
  }

  function Toggled(f: Families, d: Desk): Desk {
    if d.showing then RestoreStep(f, d) else ShowStep(f, d)
  }

  // ---- what every step keeps ----

  lemma FocusedKeeps(f: Families, d: Desk, v: nat)
    requires WellFormed(f, d) && v in d.views
    ensures var t := Focused(f, d, v); WellFormed(f, t) && Elements(t.views) == Elements(d.views) && t.minimized == d.minimized
  {
    RaisePermutes(f, d.views, v);
    BagMembers(d.views, Raised(f, d.views, v));
  }

  lemma MinimizedKeeps(f: Families, d: Desk, v: nat, on: bool)
    requires WellFormed(f, d) && v in d.views
    ensures var t := Minimized(f, d, v, on);
            && WellFormed(f, t) && Elements(t.views) == Elements(d.views)
            && t.minimized == if on then d.minimized + Unit(f, d.views, v) else d.minimized - Unit(f, d.views, v)
  {
    var unit := Unit(f, d.views, v);
    if on {
      var d1 := d.(minimized := d.minimized + unit);
      var shown := Drop(d1.views, d1.minimized);
      if shown != [] {
        DropMembers(d1.views, d1.minimized, shown[0]);
        FocusedKeeps(f, d1, shown[0]);
      }
    } else {
      FocusedKeeps(f, d.(minimized := d.minimized - unit), v);
    }
  }

  lemma SameUnits(f: Families, vs: seq<nat>, ws: seq<nat>, v: nat)
    requires Elements(vs) == Elements(ws)
    ensures Unit(f, vs, v) == Unit(f, ws, v)
  {
    forall u ensures u in vs <==> u in ws {
      assert u in Elements(vs) <==> u in Elements(ws);
    }
  }

  // ---- the methods ----

  function Switch(minimized: set<nat>, unit: set<nat>, on: bool): set<nat> {
    if on then minimized + unit else minimized - unit
  }

  /** Minimizing the active view, or showing any mapped view again, changes the focus. */
  predicate NeedsRefocus(f: Families, unit: set<nat>, minimized: set<nat>, active: Option<nat>, on: bool) {
    if on then active.Some? && active.value in unit - minimized else unit * minimized * f.mapped != {}
  }

  lemma NeedsRefocusOne(f: Families, v: nat, minimized: set<nat>, active: Option<nat>, on: bool)
    ensures NeedsRefocus(f, {v}, minimized, active, on)
         == if on then v !in minimized && active == Some(v) else v in minimized && v in f.mapped
  {
    if v in minimized && v in f.mapped {
      assert v in {v} * minimized * f.mapped;
    }
  }

  lemma NeedsRefocusMore(f: Families, unit: set<nat>, v: nat, minimized: set<nat>, active: Option<nat>, on: bool)
    ensures NeedsRefocus(f, unit + {v}, minimized, active, on)
         == (NeedsRefocus(f, unit, minimized, active, on) || NeedsRefocus(f, {v}, minimized, active, on))
    ensures NeedsRefocus(f, {v}, minimized, active, on)
         == if on then v !in minimized && active == Some(v) else v in minimized && v in f.mapped
  {
    NeedsRefocusOne(f, v, minimized, active, on);
    assert (unit + {v}) * minimized * f.mapped == unit * minimized * f.mapped + {v} * minimized * f.mapped;
  }

  lemma UnitHas(f: Families, d: Desk, v: nat)
    requires WellFormed(f, d) && v in d.views
    ensures v in Unit(f, d.views, v)
  {
  }

  class Desktop {
    const f: Families
    const stack: Stack
    var minimized: set<nat>
    var flags: set<nat>
    var showing: bool
    var active: Option<nat>

    constructor (f: Families, stack: Stack, minimized: set<nat>, active: Option<nat>)
      ensures this.f == f && this.stack == stack
      ensures Abs() == Desk(stack.views, minimized, {}, false, active)
    {
      this.f, this.stack, this.minimized, this.active := f, stack, minimized, active;
      flags, showing := {}, false;
    }

    ghost function Abs(): Desk
      reads this, stack
    {
      Desk(stack.views, minimized, flags, showing, active)
    }

    ghost predicate Valid()
      reads this, stack
    {
      stack.f == f && WellFormed(f, Abs())
    }

    method ResetDesktop()
      modifies this`showing, this`flags
      ensures Abs() == Reset(old(Abs()))
    {
      showing := false;
      flags := {};
    }

    method ModalDialogOf(v: nat) returns (dialog: Option<nat>)
      requires Distinct(stack.views)
      ensures dialog == if v in f.modal then Some(v) else FirstModal(f, ChildList(stack.f, stack.views, f.Root(v)))
    {
      if v in f.modal {
        return Some(v);
      }
      dialog := None;
      var children := stack.AppendChildren(f.Root(v));
      var k := 0;
      while k < |children|
        invariant 0 <= k <= |children|
        invariant FirstModal(f, children) == FirstModal(f, children[k..])
      {
        assert children[k..][1..] == children[k + 1..];
        if children[k] in f.modal {
          return Some(children[k]);
        }
        k := k + 1;
      }
    }

    method FocusView(v: nat)
      requires Valid() && v in stack.views && v !in minimized
      modifies this, stack
      ensures Abs() == Focused(f, old(Abs()), v) && Valid()
    {
      FocusedKeeps(f, Abs(), v);
      stack.Raise(v);
      var dialog := ModalDialogOf(v);
      active := if dialog.Some? then Some(dialog.value) else Some(v);
      ResetDesktop();
    }

    method FocusTopmost()
      requires Valid()
      modifies this, stack
      ensures Abs() == FocusedTopmost(f, old(Abs())) && Valid()
    {
      var k := 0;
      while k < |stack.views|
        invariant 0 <= k <= |stack.views|
        invariant Drop(stack.views, minimized) == Drop(stack.views[k..], minimized)
        invariant Abs() == old(Abs()) && Valid()
      {
        assert stack.views[k..][1..] == stack.views[k + 1..];
        if stack.views[k] !in minimized {
          FocusView(stack.views[k]);
          return;
        }
        k := k + 1;
      }
      active := None;
    }

    /** _minimize */
    method SetMinimized(v: nat, on: bool, refocus: bool) returns (refocus': bool)
      modifies this`minimized
      ensures Abs() == old(Abs()).(minimized := if on then old(minimized) + {v} else old(minimized) - {v})
      ensures refocus' == (refocus || (if on then v !in old(minimized) && active == Some(v) else v in old(minimized) && v in f.mapped))
    {
      refocus' := refocus;
      if (v in minimized) == on {
        return;
      }
      minimized := if on then minimized + {v} else minimized - {v};
      refocus' := refocus' || (if on then active == Some(v) else v in f.mapped);
    }

    /** The root first, then its children. */
    method SetUnit(root: nat, children: seq<nat>, on: bool) returns (refocus: bool)
      requires Distinct(children) && root !in children
      modifies this`minimized
      ensures Abs() == old(Abs()).(minimized := Switch(old(minimized), {root} + Elements(children), on))
      ensures refocus == NeedsRefocus(f, {root} + Elements(children), old(minimized), active, on)
    {
      ghost var before := minimized;
      refocus := SetMinimized(root, on, false);
      assert {root} + Elements(children[..0]) == {root};
      NeedsRefocusOne(f, root, before, active, on);
      for k := 0 to |children|
        invariant Abs() == old(Abs()).(minimized := Switch(before, {root} + Elements(children[..k]), on))
        invariant refocus == NeedsRefocus(f, {root} + Elements(children[..k]), before, active, on)
      {
        ghost var done := {root} + Elements(children[..k]);
        assert {root} + Elements(children[..k + 1]) == done + {children[k]};
        NeedsRefocusMore(f, done, children[k], before, active, on);
        refocus := SetMinimized(children[k], on, refocus);
      }
      assert children[..|children|] == children;
    }

    /** view_minimize; for an xdg-shell view only the root has children. */
    method Minimize(v: nat, on: bool)
      requires Valid() && v in stack.views
      modifies this, stack
      ensures Abs() == Minimized(f, old(Abs()), v, on) && Valid()
    {
      MinimizedKeeps(f, Abs(), v, on);
      ghost var unit := Unit(f, stack.views, v);
      var root := f.Root(v);
      ChildListFacts(f, stack.views, root);
      var children := stack.AppendChildren(root);
      assert root !in children by {
        assert root !in Elements(children);
      }
      var refocus := SetUnit(root, children, on);
      assert {root} + Elements(children) == unit;
      if refocus {
        if on {
          FocusTopmost();
        } else {
          UnitHas(f, old(Abs()), v);
          FocusView(v);
        }
      }
    }

    /** minimize_views */
    method MinimizeViews(s: seq<nat>, on: bool)
      requires Valid() && forall v :: v in s ==> v in stack.views
      modifies this, stack
      ensures Abs() == MinimizedAll(f, old(Abs()), s, on) && Valid()
      ensures Elements(stack.views) == old(Elements(stack.views))
    {
      ghost var d := Abs();
      var k := |s|;
      assert s[k..] == [];
      while k > 0
        invariant 0 <= k <= |s|
        invariant Abs() == MinimizedAll(f, d, s[k..], on) && Valid()
        invariant Elements(stack.views) == Elements(d.views)
      {
        k := k - 1;
        assert s[k..][1..] == s[k + 1..];
        assert s[k] in s;
        assert s[k] in Elements(d.views);
        MinimizedKeeps(f, Abs(), s[k], on);
        Minimize(s[k], on);
      }
      assert s[0..] == s;
    }

    method Show()
      requires Valid()
      modifies this, stack
      ensures Abs() == ShowStep(f, old(Abs())) && Valid()
    {
      var s := Drop(stack.views, minimized);
      forall v ensures v in s ==> v in stack.views {
        DropMembers(stack.views, minimized, v);
      }
      flags := flags + Elements(s);
      MinimizeViews(s, true);
      showing := true;
    }

    method Restore()
      requires Valid()
      modifies this, stack
      ensures Abs() == RestoreStep(f, old(Abs())) && Valid()
    {
      var s := Keep(stack.views, flags);
      forall v ensures v in s ==> v in stack.views {
        KeepMembers(stack.views, flags, v);
      }
      MinimizeViews(s, false);
      ResetDesktop();
    }

    /** show_desktop_toggle */
    method Toggle()
      requires Valid()
      modifies this, stack
      ensures Abs() == Toggled(f, old(Abs())) && Valid()
    {
      if showing {
        Restore();
      } else {
        Show();
      }
    }
  }
}
