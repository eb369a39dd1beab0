/** Focusing, minimizing and one half of the show-desktop toggle, view by view (src/desktop.c, src/view.c, src/show-desktop.c). */
module ShowDesktopLaws {

  import opened Options
  import opened Order
  import opened Stacking
  import opened StackingLaws
  import opened ShowDesktop

  /** A mapped modal dialog of the family of v. */
  predicate Dialog(f: Families, vs: seq<nat>, v: nat, c: nat) {
    c in f.modal && c in f.mapped && c in vs && f.Root(c) == f.Root(v) && c != f.Root(v)
  }

  /** The family of v among the views. */
  predicate SameFamily(f: Families, vs: seq<nat>, v: nat, u: nat) {
    u in vs && f.Root(u) == f.Root(v)
  }

  lemma {:induction false} FirstModalIs(f: Families, s: seq<nat>)
    requires Distinct(s)
    ensures FirstModal(f, s) == None ==> forall c <- s :: c !in f.modal
    ensures FirstModal(f, s).Some? ==>
              var dialog := FirstModal(f, s).value;
              dialog in s && dialog in f.modal && forall c <- s :: c in f.modal && c != dialog ==> Before(s, dialog, c)
  {
    if s != [] {
      TailDistinct(s);
      FirstModalIs(f, s[1..]);
      assert forall c :: c in s <==> c == s[0] || c in s[1..];
    }
  }

  /** The list of children runs from the back to the front. */
  lemma ChildListOrder(f: Families, vs: seq<nat>, r: nat, a: nat, b: nat)
    ensures a in ChildList(f, vs, r) <==> a in vs && a in f.mapped && a != r && f.Root(a) == r
    ensures Before(ChildList(f, vs, r), a, b) ==> Before(vs, b, a)
  {
    var kept := Keep(vs, Kids(f, vs, r));
    ReverseMembers(kept, a);
    KeepMembers(vs, Kids(f, vs, r), a);
    BeforeReverseIff(kept, a, b);
    BeforeInKeep(vs, Kids(f, vs, r), b, a);
  }

  /** A modal dialog takes the focus that its family is given: the view's own if it is one, and otherwise the one furthest back. */
  predicate TakesFocus(f: Families, vs: seq<nat>, v: nat, target: nat) {
    if v in f.modal || forall c <- vs :: !Dialog(f, vs, v, c) then target == v
    else Dialog(f, vs, v, target) && forall c <- vs :: Dialog(f, vs, v, c) && c != target ==> Before(vs, c, target)
  }

  lemma FocusTargetIs(f: Families, vs: seq<nat>, v: nat)
    requires Distinct(vs)
    ensures TakesFocus(f, vs, v, FocusTarget(f, vs, v))
  {
    var r := f.Root(v);
    var children := ChildList(f, vs, r);
    ChildListFacts(f, vs, r);
    FirstModalIs(f, children);
    forall c ensures c in children <==> c in vs && c in f.mapped && c != r && f.Root(c) == r {
      ChildListOrder(f, vs, r, c, c);
    }
    forall a, b | Before(children, a, b) ensures Before(vs, b, a) {
      ChildListOrder(f, vs, r, a, b);
    }
    if v !in f.modal && exists c <- vs :: Dialog(f, vs, v, c) {
      var c :| c in vs && Dialog(f, vs, v, c);
      assert c in children;
    }
  }

  /** Focusing a view raises its family and ends the state of the show-desktop toggle; nothing is minimized or restored. */
  lemma FocusedIs(f: Families, d: Desk, v: nat)
    requires WellFormed(f, d) && v in d.views
    ensures var t := Focused(f, d, v);
            && t.views == Raised(f, d.views, v) && t.minimized == d.minimized && t.flags == {} && !t.showing
            && t.active.Some? && TakesFocus(f, t.views, v, t.active.value)
  {
    RaisePermutes(f, d.views, v);
    FocusTargetIs(f, Raised(f, d.views, v), v);
  }

  /** The frontmost view that is not minimized. */
  predicate Topmost(d: Desk, v: nat) {
    v in d.views && v !in d.minimized && forall u <- d.views :: u !in d.minimized && u != v ==> Before(d.views, v, u)
  }

  /** Focusing the topmost view is focusing the frontmost that is not minimized; without one the focus is lost. */
  lemma FocusedTopmostIs(f: Families, d: Desk, v: nat)
    requires WellFormed(f, d)
    ensures Topmost(d, v) ==> FocusedTopmost(f, d) == Focused(f, d, v)
    ensures (forall u <- d.views :: u in d.minimized) ==> FocusedTopmost(f, d) == d.(active := None)
  {
    var shown := Drop(d.views, d.minimized);
    forall u ensures u in shown <==> u in d.views && u !in d.minimized {
      DropMembers(d.views, d.minimized, u);
    }
    if Topmost(d, v) && shown[0] != v {
      KeepDistinct(d.views, d.minimized);
      var i :| 0 <= i < |shown| && shown[i] == v;
      IndexBefore(shown, 0, i);
      BeforeInDrop(d.views, d.minimized, shown[0], v);
      assert shown[0] in shown && Before(d.views, v, shown[0]);
      BeforeTransitive(d.views, v, shown[0], v);
      var j, k := BeforeIndex(d.views, v, v);
    }
    if forall u <- d.views :: u in d.minimized {
      DropAll(d.views, d.minimized);
    }
  }

  /** A whole family is minimized; the focus goes to the topmost view left if the active one was hidden by that, and else nothing changes. */
  lemma MinimizedIs(f: Families, d: Desk, v: nat)
    requires WellFormed(f, d) && v in d.views
    ensures var t, u := Minimized(f, d, v, true), d.(minimized := Minimized(f, d, v, true).minimized);
            && (forall w :: w in t.minimized <==> w in d.minimized || SameFamily(f, d.views, v, w))
            && (if d.active.Some? && SameFamily(f, d.views, v, d.active.value) && d.active.value !in d.minimized
                then t == FocusedTopmost(f, u) else t == u)
  {
    MinimizedKeeps(f, d, v, true);
    UnitIs(f, d, v);
  }

  /** A whole family is shown again; the view is focused if that brings back any of it. */
  lemma RestoredIs(f: Families, d: Desk, v: nat)
    requires WellFormed(f, d) && v in d.views
    ensures var t, u := Minimized(f, d, v, false), d.(minimized := Minimized(f, d, v, false).minimized);
            && (forall w :: w in t.minimized <==> w in d.minimized && !SameFamily(f, d.views, v, w))
            && (if exists w <- d.minimized :: SameFamily(f, d.views, v, w) then t == Focused(f, u, v) else t == u)
  {
    MinimizedKeeps(f, d, v, false);
    UnitIs(f, d, v);
    var unit := Unit(f, d.views, v);
    assert forall w :: w in unit * d.minimized * f.mapped <==> w in d.minimized && SameFamily(f, d.views, v, w);
  }

  lemma UnitIs(f: Families, d: Desk, v: nat)
    requires WellFormed(f, d) && v in d.views
    ensures forall u :: u in Unit(f, d.views, v) <==> SameFamily(f, d.views, v, u)
  {
    assert f.Root(f.Root(v)) == f.Root(v) by {
      assert f.Sound();
    }
  }

  // ---- the two halves of the toggle ----

  lemma {:induction false} AllMinimizedIs(f: Families, d: Desk, s: seq<nat>, on: bool)
    requires WellFormed(f, d) && forall v <- s :: v in d.views
    ensures var t := MinimizedAll(f, d, s, on);
            && WellFormed(f, t) && Elements(t.views) == Elements(d.views)
            && (on ==> forall w :: w in t.minimized <==> w in d.minimized || exists v <- s :: SameFamily(f, d.views, v, w))
            && (!on ==> forall w :: w in t.minimized <==> w in d.minimized && forall v <- s :: !SameFamily(f, d.views, v, w))
  {
    if s != [] {
      AllMinimizedIs(f, d, s[1..], on);
      var u := MinimizedAll(f, d, s[1..], on);
      assert s[0] in s;
      assert s[0] in Elements(d.views);
      SameMembers(d.views, u.views);
      if on {
        MinimizedIs(f, u, s[0]);
      } else {
        RestoredIs(f, u, s[0]);
      }
      MinimizedKeeps(f, u, s[0], on);
      assert forall v :: v in s <==> v == s[0] || v in s[1..];
      forall w ensures SameFamily(f, d.views, s[0], w) <==> SameFamily(f, u.views, s[0], w) {
      }
    }
  }

  lemma SameMembers(vs: seq<nat>, ws: seq<nat>)
    requires Elements(vs) == Elements(ws)
    ensures forall u :: u in vs <==> u in ws
  {
    forall u ensures u in vs <==> u in ws {
      assert u in Elements(vs) <==> u in Elements(ws);
    }
  }

  /** Showing the desktop minimizes every view there is. */
  lemma ShownDesktopIsEmpty(f: Families, d: Desk)
    requires WellFormed(f, d) && !d.showing
    ensures var t := Toggled(f, d);
            && t.showing && Elements(t.views) == Elements(d.views)
            && forall w <- t.views :: w in t.minimized
  {
    var s, d1 := Shown(d), d.(flags := d.flags + Elements(Shown(d)));
    forall v ensures v in s <==> v in d.views && v !in d.minimized {
      DropMembers(d.views, d.minimized, v);
    }
    AllMinimizedIs(f, d1, s, true);
    var t := MinimizedAll(f, d1, s, true);
    SameMembers(d.views, t.views);
    forall w | w in t.views ensures w in t.minimized {
      assert w in d.views;
      if w !in d.minimized {
        assert w in s && SameFamily(f, d1.views, w, w);
      }
    }
  }

  /** Restoring brings back exactly the families with a flagged member, and forgets the flags. */
  lemma RestoredDesktopIs(f: Families, d: Desk)
    requires WellFormed(f, d) && d.showing
    ensures var t := Toggled(f, d);
            && !t.showing && t.flags == {} && Elements(t.views) == Elements(d.views)
            && forall w :: w in t.minimized <==>
                 w in d.minimized && forall v <- d.views :: v in d.flags ==> !SameFamily(f, d.views, v, w)
  {
    var s := Keep(d.views, d.flags);
    forall v ensures v in s <==> v in d.views && v in d.flags {
      KeepMembers(d.views, d.flags, v);
    }
    AllMinimizedIs(f, d, s, false);
  }
}
