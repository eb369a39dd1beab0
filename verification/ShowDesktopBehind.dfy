/** Toggling show-desktop while the active view is behind another family: exactly when nothing comes back. */
module ShowDesktopBehind {

  import opened Options
  import opened Order
  import opened Stacking
  import opened ShowDesktop
  import opened ShowDesktopTwice

  /** Minimizing views minimizes their families, and flags are never added, only cleared. */
  lemma {:induction false} HidingAll(f: Families, d: Desk, s: seq<nat>)
    requires WellFormed(f, d) && forall v <- s :: v in d.views
    ensures var t := MinimizedAll(f, d, s, true);
            && WellFormed(f, t) && Elements(t.views) == Elements(d.views)
            && t.minimized == d.minimized + Kin(f, d.views, s)
            && (t.flags == d.flags || t.flags == {})
  {
    if s == [] {
      assert Kin(f, d.views, s) == {};
    } else {
      HidingAll(f, d, s[1..]);
      var t := MinimizedAll(f, d, s[1..], true);
      assert s[0] in Elements(d.views);
      MinimizedKeeps(f, t, s[0], true);
      SameUnits(f, t.views, d.views, s[0]);
      KinOfCons(f, d, s);
    }
  }

  /** Families other than the active view's disappear without moving the focus. */
  lemma {:induction false} HidingOthers(f: Families, d: Desk, s: seq<nat>, a: nat)
    requires WellFormed(f, d) && d.active == Some(a) && forall v <- s :: v in d.views && f.Root(v) != f.Root(a)
    ensures MinimizedAll(f, d, s, true) == d.(minimized := d.minimized + Kin(f, d.views, s))
  {
    if s == [] {
      assert Kin(f, d.views, s) == {};
    } else {
      HidingOthers(f, d, s[1..], a);
      KinOfCons(f, d, s);
      UnitIsFamily(f, d, s[0]);
      assert d.minimized + Kin(f, d.views, s[1..]) + Unit(f, d.views, s[0]) == d.minimized + Kin(f, d.views, s);
    }
  }

  /** Minimizing the active view while another one is visible focuses that one, and focusing clears the flags. */
  lemma FocusClearsFlags(f: Families, t: Desk, v: nat, a: nat, other: nat)
    requires t.active == Some(a) && a in Unit(f, t.views, v) && a !in t.minimized
    requires other in t.views && other !in t.minimized + Unit(f, t.views, v)
    ensures Minimized(f, t, v, true).flags == {}
  {
    DropMembers(t.views, t.minimized + Unit(f, t.views, v), other);
  }

  /** The frontmost family does not reach down to views below the active family. */
  lemma FrontNotBelow(f: Families, d: Desk, s: seq<nat>)
    requires WellFormed(f, d) && Together(f, d.views) && Suffix(s, Shown(d)) && s != []
    requires f.Root(s[0]) != f.Root(Shown(d)[0])
    ensures f.Root(Shown(d)[0]) !in Roots(f, s)
  {
    var shown, i := Shown(d), |Shown(d)| - |s|;
    var front, head := shown[0], s[0];
    assert shown[i] == head;
    IndexBefore(shown, 0, i);
    BeforeInDrop(d.views, d.minimized, front, head);
    BeforeMembers(d.views, front, head);
    forall c | c in s ensures f.Root(c) != f.Root(front) {
      if c != head {
        HeadBefore(d, s, c);
      }
    }
  }

  /** The step at which the active view's family is met for the first time. */
  lemma MeetingActiveClears(f: Families, d: Desk, s: seq<nat>, a: nat)
    requires WellFormed(f, d) && Together(f, d.views) && d.active == Some(a) && a in Shown(d)
    requires Suffix(s, Shown(d)) && s != [] && f.Root(a) != f.Root(Shown(d)[0])
    requires f.Root(s[0]) == f.Root(a) && f.Root(a) !in Roots(f, s[1..])
    ensures MinimizedAll(f, d, s, true).flags == {}
  {
    ShownAreViews(d);
    SuffixTail(s, Shown(d));
    forall v | v in s[1..] ensures v in d.views && f.Root(v) != f.Root(a) {
      assert v in s && f.Root(v) in Roots(f, s[1..]);
    }
    HidingOthers(f, d, s[1..], a);
    UnitIsFamily(f, d, s[0]);
    FrontNotBelow(f, d, s);
    KinOfCons(f, d, s);
    FocusClearsFlags(f, MinimizedAll(f, d, s[1..], true), s[0], a, Shown(d)[0]);
  }

  lemma {:induction false} BehindClears(f: Families, d: Desk, s: seq<nat>, a: nat)
    requires WellFormed(f, d) && Together(f, d.views) && d.active == Some(a) && a in Shown(d)
    requires f.Root(a) != f.Root(Shown(d)[0])
    requires Suffix(s, Shown(d)) && f.Root(a) in Roots(f, s)
    ensures MinimizedAll(f, d, s, true).flags == {}
  {
    SuffixTail(s, Shown(d));
    RootsOfCons(f, s);
    if f.Root(a) in Roots(f, s[1..]) {
      BehindClears(f, d, s[1..], a);
      StaysCleared(f, d, s);
    } else {
      MeetingActiveClears(f, d, s, a);
    }
  }

  lemma StaysCleared(f: Families, d: Desk, s: seq<nat>)
    requires WellFormed(f, d) && Suffix(s, Shown(d)) && s != [] && MinimizedAll(f, d, s[1..], true).flags == {}
    ensures MinimizedAll(f, d, s, true).flags == {}
  {
    ShownAreViews(d);
    SuffixTail(s, Shown(d));
    forall v | v in s[1..] ensures v in d.views {
      assert v in s;
    }
    HidingAll(f, d, s[1..]);
  }

  lemma ShownAreViews(d: Desk)
    ensures forall v <- Shown(d) :: v in d.views && v !in d.minimized
  {
    forall v | v in Shown(d) ensures v in d.views && v !in d.minimized {
      DropMembers(d.views, d.minimized, v);
    }
  }

  /** With another family in front of the active view, the first toggle forgets what it hid and the second brings nothing back. */
  lemma BehindLosesEverything(f: Families, d: Desk)
    requires Idle(f, d) && !ActiveInFront(f, d)
    ensures Toggled(f, d).flags == {}
    ensures Toggled(f, Toggled(f, d)).minimized == Toggled(f, d).minimized == d.minimized + Kin(f, d.views, Shown(d))
  {
    var d1 := d.(flags := d.flags + Elements(Shown(d)));
    assert d1.(flags := {}) == d && Shown(d1) == Shown(d);
    ShownAreViews(d);
    HidingAll(f, d1, Shown(d));
    BehindClears(f, d1, Shown(d), d.active.value);
    var h := Toggled(f, d);
    KeepNothing(h.views, {});
    assert Keep(h.views, {}) == [];
  }

  /**
   * Toggling twice restores the minimized set if and only if the active view, if
   * any, belongs to the frontmost family and no visible view has a minimized
   * relative.
   */
  lemma TwiceRestoresIff(f: Families, d: Desk)
    requires Idle(f, d)
    ensures Toggled(f, Toggled(f, d)).minimized == d.minimized <==> ActiveInFront(f, d) && Uniform(f, d)
  {
    if ActiveInFront(f, d) {
      TwiceRestoresMinimizedIff(f, d);
    } else {
      BehindLosesEverything(f, d);
      ShownAreViews(d);
      assert d.active.value in Kin(f, d.views, Shown(d));
    }
  }
}
