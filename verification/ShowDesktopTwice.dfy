/** Toggling show-desktop twice: what comes back, in which order, and where the focus goes. */
module ShowDesktopTwice {
  import opened Options
  import opened Order
  import opened Stacking
  import opened ShowDesktop

  function Roots(f: Families, s: seq<nat>): set<nat> {
    set v | v in s :: f.Root(v)
  }

  /** The views whose family has a member in s. */
  function Kin(f: Families, vs: seq<nat>, s: seq<nat>): set<nat> {
    set v | v in vs && f.Root(v) in Roots(f, s)
  }

  lemma RootsOfCons(f: Families, s: seq<nat>)
    requires s != []
    ensures Roots(f, s) == {f.Root(s[0])} + Roots(f, s[1..])
  {
    assert forall v :: v in s <==> v == s[0] || v in s[1..];
    assert s[0] in s;
  }

  lemma KinOfCons(f: Families, d: Desk, s: seq<nat>)
    requires WellFormed(f, d) && s != [] && s[0] in d.views
    ensures Kin(f, d.views, s) == Unit(f, d.views, s[0]) + Kin(f, d.views, s[1..])
  {
    RootsOfCons(f, s);
    RootOfRoot(f, s[0]);
    forall v ensures v in Unit(f, d.views, s[0]) <==> v in d.views && f.Root(v) == f.Root(s[0]) {
    }
  }

  /** Nothing flagged yet, families together, and the active view, if any, is visible. */
  ghost predicate Idle(f: Families, d: Desk) {
    && WellFormed(f, d) && Together(f, d.views)
    && d.flags == {} && !d.showing
    && (d.active.Some? ==> d.active.value in Shown(d))
  }

  /** The active view belongs to the frontmost family. */
  predicate ActiveInFront(f: Families, d: Desk) {
    d.active.Some? && Shown(d) != [] ==> f.Root(d.active.value) == f.Root(Shown(d)[0])
  }

  /** A state in which the toggle is used as intended. */
  ghost predicate Fresh(f: Families, d: Desk) {
    Idle(f, d) && ActiveInFront(f, d)
  }

  predicate Suffix(s: seq<nat>, t: seq<nat>) {
    |s| <= |t| && s == t[|t| - |s|..]
  }

  lemma SuffixTail(s: seq<nat>, t: seq<nat>)
    requires Suffix(s, t) && s != []
    ensures Suffix(s[1..], t) && s[0] == t[|t| - |s|] && s[0] in t
  {
  }

  // ---- the first toggle ----

  /** While views are minimized from back to front, the flags survive: focus only moves when nothing is left to focus. */
  lemma {:induction false} HidingKeepsFlags(f: Families, d: Desk, s: seq<nat>)
    requires Fresh(f, d.(flags := {})) && Suffix(s, Shown(d))
    ensures MinimizedAll(f, d, s, true)
         == d.(minimized := d.minimized + Kin(f, d.views, s),
               active := if d.active.Some? && f.Root(d.active.value) in Roots(f, s) then None else d.active)
  {
    if s == [] {
      assert Kin(f, d.views, s) == {};
    } else {
      var rest := s[1..];
      SuffixTail(s, Shown(d));
      DropMembers(d.views, d.minimized, s[0]);
      HidingKeepsFlags(f, d, rest);
      KinOfCons(f, d, s);
      RootsOfCons(f, s);
      if d.active.Some? {
        ActiveFacts(f, d, s, d.active.value);
      }
      HideOne(f, d, MinimizedAll(f, d, rest, true), s);
    }
  }

  /** What the current step needs to know about the active view a. */
  ghost predicate Tracks(f: Families, d: Desk, s: seq<nat>, a: nat)
    requires s != []
  {
    && a !in d.minimized
    && (a in Kin(f, d.views, s[1..]) <==> f.Root(a) in Roots(f, s[1..]))
    && (a in Unit(f, d.views, s[0]) <==> f.Root(a) == f.Root(s[0]))
    && (f.Root(a) == f.Root(s[0]) ==> Drop(d.views, d.minimized + Kin(f, d.views, s)) == [])
  }

  lemma ActiveFacts(f: Families, d: Desk, s: seq<nat>, a: nat)
    requires Fresh(f, d.(flags := {})) && Suffix(s, Shown(d)) && s != [] && d.active == Some(a)
    ensures Tracks(f, d, s, a)
  {
    SuffixTail(s, Shown(d));
    DropMembers(d.views, d.minimized, s[0]);
    UnitIsFamily(f, d, s[0]);
    DropMembers(d.views, d.minimized, a);
    assert a in Shown(d);
    if f.Root(a) == f.Root(s[0]) {
      NothingLeft(f, d, s);
    }
  }

  /** One step: the focus moves only if the active view is in this family and in none before. */
  lemma HideOne(f: Families, d: Desk, t: Desk, s: seq<nat>)
    requires s != []
    requires t == d.(minimized := d.minimized + Kin(f, d.views, s[1..]),
                     active := if d.active.Some? && f.Root(d.active.value) in Roots(f, s[1..]) then None else d.active)
    requires Kin(f, d.views, s) == Unit(f, d.views, s[0]) + Kin(f, d.views, s[1..])
    requires Roots(f, s) == {f.Root(s[0])} + Roots(f, s[1..])
    requires d.active.Some? ==> Tracks(f, d, s, d.active.value)
    ensures Minimized(f, t, s[0], true)
         == d.(minimized := d.minimized + Kin(f, d.views, s),
               active := if d.active.Some? && f.Root(d.active.value) in Roots(f, s) then None else d.active)
  {
    assert t.minimized + Unit(f, d.views, s[0]) == d.minimized + Kin(f, d.views, s);
    if d.active.Some? {
      HideActive(f, t, s[0], d.active.value, f.Root(d.active.value) in Roots(f, s[1..]), d.minimized + Kin(f, d.views, s));
    }
  }

  lemma HideActive(f: Families, t: Desk, v: nat, a: nat, met: bool, m: set<nat>)
    requires !met ==> a !in t.minimized
    requires t.active == if met then None else Some(a)
    requires t.minimized + Unit(f, t.views, v) == m
    requires a in Unit(f, t.views, v) <==> f.Root(a) == f.Root(v)
    requires f.Root(a) == f.Root(v) ==> Drop(t.views, m) == []
    ensures Minimized(f, t, v, true) == t.(minimized := m, active := if met || f.Root(a) == f.Root(v) then None else Some(a))
  {
  }

  lemma UnitIsFamily(f: Families, d: Desk, v: nat)
    requires WellFormed(f, d) && v in d.views
    ensures forall u :: u in Unit(f, d.views, v) <==> u in d.views && f.Root(u) == f.Root(v)
  {
    RootOfRoot(f, v);
  }

  /** When the family of the active view is reached, every other view has been minimized already. */
  lemma NothingLeft(f: Families, d: Desk, s: seq<nat>)
    requires Fresh(f, d.(flags := {})) && Suffix(s, Shown(d)) && s != []
    requires d.active.Some? && f.Root(d.active.value) == f.Root(s[0])
    ensures Drop(d.views, d.minimized + Kin(f, d.views, s)) == []
  {
    forall u | u in d.views ensures u in d.minimized + Kin(f, d.views, s) {
      if u !in d.minimized {
        DropMembers(d.views, d.minimized, u);
        var k :| 0 <= k < |Shown(d)| && Shown(d)[k] == u;
        ShownIsKin(f, d, s, k);
      }
    }
    DropAll(d.views, d.minimized + Kin(f, d.views, s));
  }

  /** A visible view is in the suffix, or in front of it and then in the family of the frontmost view. */
  lemma ShownIsKin(f: Families, d: Desk, s: seq<nat>, k: nat)
    requires WellFormed(f, d) && Grouped(f, d.views) && Suffix(s, Shown(d)) && s != [] && k < |Shown(d)|
    requires f.Root(Shown(d)[0]) == f.Root(s[0])
    ensures f.Root(Shown(d)[k]) in Roots(f, s)
  {
    var shown, i := Shown(d), |Shown(d)| - |s|;
    assert s[0] == shown[i] && s[0] in s;
    if k >= i {
      assert s[k - i] == shown[k] && s[k - i] in s;
    } else if k > 0 {
      IndexBefore(shown, 0, k);
      IndexBefore(shown, k, i);
      BeforeInDrop(d.views, d.minimized, shown[0], shown[k]);
      BeforeInDrop(d.views, d.minimized, shown[k], shown[i]);
      BeforeMembers(d.views, shown[0], shown[k]);
      BeforeMembers(d.views, shown[k], shown[i]);
      Sandwich(f, d.views, shown[0], shown[k], shown[i]);
    }
  }

  /** After the first toggle every family with a visible member is minimized and exactly the views that were visible are flagged. */
  lemma HiddenDesk(f: Families, d: Desk)
    requires Fresh(f, d)
    ensures Toggled(f, d) == d.(minimized := d.minimized + Kin(f, d.views, Shown(d)), flags := Elements(Shown(d)),
                                showing := true, active := None)
  {
    var d1 := d.(flags := d.flags + Elements(Shown(d)));
    assert d1.(flags := {}) == d;
    assert Shown(d1) == Shown(d);
    HidingKeepsFlags(f, d1, Shown(d));
    assert d.flags + Elements(Shown(d)) == Elements(Shown(d));
    if d.active.Some? {
      assert d.active.value in Shown(d);
    }
  }

  // ---- the second toggle ----

  lemma {:induction false} MinimizedAfterAll(f: Families, d: Desk, s: seq<nat>)
    requires WellFormed(f, d) && forall v :: v in s ==> v in d.views
    ensures var t := MinimizedAll(f, d, s, false);
            WellFormed(f, t) && Elements(t.views) == Elements(d.views) && t.minimized == d.minimized - Kin(f, d.views, s)
  {
    if s == [] {
      assert Kin(f, d.views, s) == {};
    } else {
      assert s[0] in s;
      MinimizedAfterAll(f, d, s[1..]);
      var t := MinimizedAll(f, d, s[1..], false);
      assert s[0] in Elements(d.views);
      MinimizedKeeps(f, t, s[0], false);
      SameUnits(f, t.views, d.views, s[0]);
      KinOfCons(f, d, s);
    }
  }

  /** Every family is either wholly minimized or wholly visible. */
  predicate Uniform(f: Families, d: Desk) {
    d.minimized * Kin(f, d.views, Shown(d)) == {}
  }

  /**
   Two toggles bring back exactly the old set of minimized views if and only if no visible view has a
   minimized relative; otherwise the relative comes back too.
   */
  lemma TwiceRestoresMinimizedIff(f: Families, d: Desk)
    requires Fresh(f, d)
    ensures Toggled(f, Toggled(f, d)).minimized == d.minimized - Kin(f, d.views, Shown(d))
    ensures Toggled(f, Toggled(f, d)).minimized == d.minimized <==> Uniform(f, d)
  {
    HiddenDesk(f, d);
    var h := Toggled(f, d);
    KeepDropped(d.views, d.minimized);
    var s := Shown(d);
    forall v | v in s ensures v in h.views {
      DropMembers(d.views, d.minimized, v);
    }
    MinimizedAfterAll(f, h, s);
    MinusIff(d.minimized, Kin(f, d.views, s));
  }

  lemma MinusIff(m: set<nat>, k: set<nat>)
    ensures m + k - k == m - k
    ensures m - k == m <==> m * k == {}
  {
    if m - k == m {
      forall v ensures v !in m * k {
        assert v in m <==> v in m - k;
      }
    }
    if m * k == {} {
      forall v | v in m ensures v in m - k {
        assert v !in m * k;
      }
    }
  }

  // ---- order and focus ----

  /** The root of a family comes after all its other members. */
  lemma RootIsBelow(f: Families, d: Desk, a: nat)
    requires WellFormed(f, d) && Together(f, d.views) && a in d.views && a != f.Root(a)
    ensures Before(d.views, a, f.Root(a)) && !Before(d.views, f.Root(a), a)
  {
    RootOfRoot(f, a);
    BeforeTotal(d.views, a, f.Root(a));
  }

  /** The first view met from the back whose family has not been met yet is the root of its family. */
  lemma BackmostIsRoot(f: Families, d: Desk, s: seq<nat>)
    requires WellFormed(f, d) && Together(f, d.views) && Uniform(f, d)
    requires Suffix(s, Shown(d)) && s != [] && f.Root(s[0]) !in Roots(f, s[1..])
    ensures s[0] == f.Root(s[0])
  {
    var shown, r, i := Shown(d), f.Root(s[0]), |Shown(d)| - |s|;
    SuffixTail(s, shown);
    DropMembers(d.views, d.minimized, s[0]);
    RootOfRoot(f, s[0]);
    assert r in Kin(f, d.views, shown);
    assert r !in d.minimized * Kin(f, d.views, shown);
    DropMembers(d.views, d.minimized, r);
    forall k | i < k < |shown| ensures shown[k] != r {
      assert s[1..][k - i - 1] == shown[k];
      assert f.Root(shown[k]) in Roots(f, s[1..]);
    }
    if s[0] != r {
      RootIsBelow(f, d, s[0]);
      forall k | 0 <= k < i ensures shown[k] != r {
        IndexBefore(shown, k, i);
        BeforeInDrop(d.views, d.minimized, shown[k], s[0]);
      }
      assert false;
    }
  }

  /** The head of a suffix comes before its other elements. */
  lemma HeadBefore(d: Desk, s: seq<nat>, c: nat)
    requires Suffix(s, Shown(d)) && s != [] && c in s[1..]
    ensures Before(d.views, s[0], c) && c in d.views
  {
    var k :| 0 <= k < |s[1..]| && s[1..][k] == c;
    var shown, i := Shown(d), |Shown(d)| - |s|;
    assert shown[i + 1 + k] == c && shown[i] == s[0];
    IndexBefore(shown, i, i + 1 + k);
    BeforeInDrop(d.views, d.minimized, s[0], c);
    BeforeMembers(d.views, s[0], c);
  }

  /** The family of s[0] lies wholly above the families that come after it. */
  lemma FamilyAbove(f: Families, d: Desk, s: seq<nat>, a: nat, b: nat)
    requires WellFormed(f, d) && Together(f, d.views) && Suffix(s, Shown(d)) && s != []
    requires s[0] == f.Root(s[0]) && s[0] !in Roots(f, s[1..])
    requires a in d.views && f.Root(a) == s[0] && b in Kin(f, d.views, s[1..])
    ensures !Before(d.views, b, a)
  {
    var c :| c in s[1..] && f.Root(c) == f.Root(b);
    HeadBefore(d, s, c);
    if a != s[0] {
      RootIsBelow(f, d, a);
      BeforeTransitive(d.views, a, s[0], c);
    }
    assert f.Root(c) in Roots(f, s[1..]);
    if Before(d.views, b, a) {
      Sandwich(f, d.views, b, a, c);
    }
  }

  lemma Sandwich(f: Families, vs: seq<nat>, a: nat, b: nat, c: nat)
    requires Grouped(f, vs) && Before(vs, a, b) && Before(vs, b, c)
    requires a in f.mapped && b in f.mapped && c in f.mapped && f.Root(a) == f.Root(c)
    ensures f.Root(b) == f.Root(a)
  {
  }

  /** Raising the root of the next family puts the whole family in front of those already restored. */
  lemma RaiseRestores(f: Families, d: Desk, s: seq<nat>)
    requires WellFormed(f, d) && Together(f, d.views) && Suffix(s, Shown(d)) && s != []
    requires s[0] == f.Root(s[0]) && s[0] !in Roots(f, s[1..])
    ensures var vs, u, u' := d.views, Kin(f, d.views, s[1..]), Kin(f, d.views, s);
            Raised(f, Keep(vs, u) + Drop(vs, u), s[0]) == Keep(vs, u') + Drop(vs, u')
  {
    SuffixTail(s, Shown(d));
    DropMembers(d.views, d.minimized, s[0]);
    KinOfCons(f, d, s);
    FamilyInFront(f, d, s);
    RaiseSplit(f, d, s[0], Kin(f, d.views, s[1..]));
  }

  lemma RaiseSplit(f: Families, d: Desk, r: nat, u: set<nat>)
    requires WellFormed(f, d) && Together(f, d.views) && r in d.views && r == f.Root(r)
    requires Unit(f, d.views, r) !! u
    requires Keep(d.views, Unit(f, d.views, r) + u) == Keep(d.views, Unit(f, d.views, r)) + Keep(d.views, u)
    ensures var vs, u' := d.views, Unit(f, d.views, r) + u;
            Raised(f, Keep(vs, u) + Drop(vs, u), r) == Keep(vs, u') + Drop(vs, u')
  {
    var vs, unit := d.views, Unit(f, d.views, r);
    var list := Keep(vs, u) + Drop(vs, u);
    ListMembers(vs, u);
    if r == list[0] || r == f.Root(list[0]) {
      FrontFamily(f, d, r, u);
    } else {
      KidsThenRoot(f, d, r);
      assert unit == Kids(f, vs, r) + {r};
      RaisedList(f, vs, u, r, unit);
    }
  }

  lemma FamilyInFront(f: Families, d: Desk, s: seq<nat>)
    requires WellFormed(f, d) && Together(f, d.views) && Suffix(s, Shown(d)) && s != []
    requires s[0] == f.Root(s[0]) && s[0] !in Roots(f, s[1..]) && s[0] in d.views
    ensures var vs, unit, u := d.views, Unit(f, d.views, s[0]), Kin(f, d.views, s[1..]);
            unit !! u && Keep(vs, unit + u) == Keep(vs, unit) + Keep(vs, u)
  {
    var vs, unit, u := d.views, Unit(f, d.views, s[0]), Kin(f, d.views, s[1..]);
    UnitIsFamily(f, d, s[0]);
    forall b, a | b in vs && a in vs && b in u && a in unit ensures !Before(vs, b, a) {
      FamilyAbove(f, d, s, a, b);
    }
    KeepUnion(vs, unit, u);
  }

  lemma ListMembers(vs: seq<nat>, u: set<nat>)
    ensures forall v :: v in Keep(vs, u) + Drop(vs, u) <==> v in vs
  {
    forall v ensures v in Keep(vs, u) + Drop(vs, u) <==> v in vs {
      KeepMembers(vs, u, v);
      DropMembers(vs, u, v);
    }
  }

  /** The list in front of which a family already is needs no change. */
  lemma FrontFamily(f: Families, d: Desk, r: nat, u: set<nat>)
    requires WellFormed(f, d) && Together(f, d.views) && r in d.views && r == f.Root(r)
    requires u !! Unit(f, d.views, r)
    requires var list := Keep(d.views, u) + Drop(d.views, u); list != [] && (r == list[0] || r == f.Root(list[0]))
    ensures var vs, unit := d.views, Unit(f, d.views, r);
            Keep(vs, u) + Drop(vs, u) == Keep(vs, unit + u) + Drop(vs, unit + u)
  {
    var vs, unit := d.views, Unit(f, d.views, r);
    var list := Keep(vs, u) + Drop(vs, u);
    UnitIsFamily(f, d, r);
    ListMembers(vs, u);
    assert list[0] in list;
    assert list[0] in unit;
    if Keep(vs, u) != [] {
      KeepMembers(vs, u, list[0]);
    }
    NoneKept(vs, u);
    assert vs[0] == list[0];
    forall a, b | a in vs && b in vs && b !in unit && a in unit ensures !Before(vs, b, a) {
      BeforeFirst(vs, b);
    }
    Split(vs, unit);
    KeepUnionNone(vs, unit, u);
  }

  lemma {:induction false} NoneKept(vs: seq<nat>, u: set<nat>)
    requires Keep(vs, u) == []
    ensures Drop(vs, u) == vs && forall v :: v in vs ==> v !in u
  {
    forall v | v in vs ensures v !in u {
      KeepMembers(vs, u, v);
    }
    DropNothing(vs, u);
  }

  lemma BeforeFirst(vs: seq<nat>, b: nat)
    requires b in vs
    ensures b == vs[0] || Before(vs, vs[0], b)
  {
  }

  lemma {:induction false} KeepUnionNone(vs: seq<nat>, a: set<nat>, u: set<nat>)
    requires forall v :: v in vs ==> v !in u
    ensures Keep(vs, a + u) == Keep(vs, a) && Drop(vs, a + u) == Drop(vs, a)
  {
    if vs != [] {
      assert vs[0] in vs;
      KeepUnionNone(vs[1..], a, u);
    }
  }

  /** Within its family the root is last. */
  lemma KidsThenRoot(f: Families, d: Desk, r: nat)
    requires WellFormed(f, d) && Together(f, d.views) && r in d.views && r == f.Root(r)
    ensures Keep(d.views, Kids(f, d.views, r)) + [r] == Keep(d.views, Unit(f, d.views, r))
  {
    var vs, kids := d.views, Kids(f, d.views, r);
    forall u, v | u in vs && v in vs && u in {r} && v in kids ensures !Before(vs, u, v) {
      RootIsBelow(f, d, v);
    }
    KeepUnion(vs, kids, {r});
    KeepSingle(vs, r);
  }

  lemma RaisedList(f: Families, vs: seq<nat>, u: set<nat>, r: nat, unit: set<nat>)
    requires vs != [] && r in vs && r == f.Root(r)
    requires unit == Kids(f, vs, r) + {r} && u !! unit
    requires Keep(vs, Kids(f, vs, r)) + [r] == Keep(vs, unit)
    requires var list := Keep(vs, u) + Drop(vs, u); list != [] && r != list[0] && r != f.Root(list[0])
    ensures Raised(f, Keep(vs, u) + Drop(vs, u), r) == Keep(vs, unit) + Keep(vs, u) + Drop(vs, unit + u)
  {
    var kids, list := Kids(f, vs, r), Keep(vs, u) + Drop(vs, u);
    SameKids(f, vs, u, r);
    assert kids - {r} == kids && kids + {r, r} == unit;
    RaisedParts(vs, u, kids, unit);
  }

  lemma SameKids(f: Families, vs: seq<nat>, u: set<nat>, r: nat)
    ensures Kids(f, Keep(vs, u) + Drop(vs, u), r) == Kids(f, vs, r)
  {
    ListMembers(vs, u);
  }

  lemma RaisedParts(vs: seq<nat>, u: set<nat>, kids: set<nat>, unit: set<nat>)
    requires kids <= unit && u !! unit
    ensures Keep(Keep(vs, u) + Drop(vs, u), kids) == Keep(vs, kids)
    ensures Drop(Keep(vs, u) + Drop(vs, u), unit) == Keep(vs, u) + Drop(vs, unit + u)
  {
    KeepConcat(Keep(vs, u), Drop(vs, u), kids);
    KeepOfKeep(vs, u, kids);
    assert u * kids == {};
    KeepNothing(vs, {});
    KeepOfDrop(vs, u, kids);
    DropConcat(Keep(vs, u), Drop(vs, u), unit);
    DropOfKeep(vs, u, unit);
    assert u - unit == u;
    DropAgain(vs, u, unit);
    assert u + unit == unit + u;
  }

  /** The desk after the views of the suffix s have been shown again. */
  function Restored(f: Families, d: Desk, h: Desk, s: seq<nat>): Desk {
    var u := Kin(f, d.views, s);
    var vs := Keep(d.views, u) + Drop(d.views, u);
    var t := h.(views := vs, minimized := h.minimized - u);
    if s == [] then t else Reset(t.(active := Some(FocusTarget(f, vs, f.Root(s[0])))))
  }

  lemma {:induction false} RestoringFamilies(f: Families, d: Desk, h: Desk, s: seq<nat>)
    requires WellFormed(f, d) && Together(f, d.views) && Uniform(f, d) && Suffix(s, Shown(d))
    requires h.views == d.views && h.minimized == d.minimized + Kin(f, d.views, Shown(d))
    ensures MinimizedAll(f, h, s, false) == Restored(f, d, h, s)
  {
    if s == [] {
      assert Kin(f, d.views, s) == {};
      KeepNothing(d.views, {});
      DropNothing(d.views, {});
    } else {
      SuffixTail(s, Shown(d));
      DropMembers(d.views, d.minimized, s[0]);
      RestoringFamilies(f, d, h, s[1..]);
      if f.Root(s[0]) in Roots(f, s[1..]) {
        ShownAlready(f, d, h, s);
      } else {
        ShowNextFamily(f, d, h, s);
      }
    }
  }

  /** A view whose family is back changes nothing. */
  lemma ShownAlready(f: Families, d: Desk, h: Desk, s: seq<nat>)
    requires WellFormed(f, d) && Together(f, d.views) && Suffix(s, Shown(d)) && s != [] && s[0] in d.views
    requires f.Root(s[0]) in Roots(f, s[1..])
    ensures Minimized(f, Restored(f, d, h, s[1..]), s[0], false) == Restored(f, d, h, s)
  {
    var t, unit := Restored(f, d, h, s[1..]), Unit(f, d.views, s[0]);
    KinOfCons(f, d, s);
    UnitIsFamily(f, d, s[0]);
    assert Kin(f, d.views, s) == Kin(f, d.views, s[1..]);
    SameKids(f, d.views, Kin(f, d.views, s[1..]), f.Root(s[0]));
    assert Unit(f, t.views, s[0]) == unit;
    assert unit * t.minimized == {};
    NothingToShow(f, t, s[0]);
    SameFamilyNext(f, d, s);
  }

  lemma NothingToShow(f: Families, t: Desk, v: nat)
    requires Unit(f, t.views, v) * t.minimized == {}
    ensures Minimized(f, t, v, false) == t
  {
    var unit := Unit(f, t.views, v);
    assert unit * t.minimized * f.mapped == {};
    assert t.minimized - unit == t.minimized;
  }

  /** Relatives of the head in the rest of the suffix start right after it. */
  lemma SameFamilyNext(f: Families, d: Desk, s: seq<nat>)
    requires WellFormed(f, d) && Grouped(f, d.views) && Suffix(s, Shown(d)) && s != [] && s[0] in d.views
    requires f.Root(s[0]) in Roots(f, s[1..])
    ensures |s| > 1 && f.Root(s[1]) == f.Root(s[0])
  {
    var c :| c in s[1..] && f.Root(c) == f.Root(s[0]);
    if c != s[1] {
      HeadBefore(d, s, s[1]);
      SecondBefore(d, s, c);
      Sandwich(f, d.views, s[0], s[1], c);
    }
  }

  lemma SecondBefore(d: Desk, s: seq<nat>, c: nat)
    requires Suffix(s, Shown(d)) && |s| > 1 && c in s[1..] && c != s[1]
    ensures Before(d.views, s[1], c) && c in d.views
  {
    var rest := s[1..];
    SuffixTail(s, Shown(d));
    var k :| 0 <= k < |rest| && rest[k] == c;
    assert rest[1..][k - 1] == c;
    HeadBefore(d, rest, c);
  }

  /** The next family comes back as a whole, above those that came back before, and takes the focus. */
  lemma ShowNextFamily(f: Families, d: Desk, h: Desk, s: seq<nat>)
    requires WellFormed(f, d) && Together(f, d.views) && Uniform(f, d) && Suffix(s, Shown(d)) && s != [] && s[0] in d.views
    requires h.views == d.views && h.minimized == d.minimized + Kin(f, d.views, Shown(d))
    requires f.Root(s[0]) !in Roots(f, s[1..])
    ensures Minimized(f, Restored(f, d, h, s[1..]), s[0], false) == Restored(f, d, h, s)
  {
    BackmostIsRoot(f, d, s);
    RaiseRestores(f, d, s);
    KinOfCons(f, d, s);
    StillHidden(f, d, h, s);
    ShowNextRoot(f, d, h, s);
  }

  lemma ShowNextRoot(f: Families, d: Desk, h: Desk, s: seq<nat>)
    requires s != [] && s[0] in d.views && s[0] == f.Root(s[0])
    requires Kin(f, d.views, s) == Unit(f, d.views, s[0]) + Kin(f, d.views, s[1..])
    requires Unit(f, d.views, s[0]) * (h.minimized - Kin(f, d.views, s[1..])) * f.mapped != {}
    requires var vs, u, u' := d.views, Kin(f, d.views, s[1..]), Kin(f, d.views, s);
             Keep(vs, u) + Drop(vs, u) != [] ==> Raised(f, Keep(vs, u) + Drop(vs, u), s[0]) == Keep(vs, u') + Drop(vs, u')
    ensures Minimized(f, Restored(f, d, h, s[1..]), s[0], false) == Restored(f, d, h, s)
  {
    var t, unit, u := Restored(f, d, h, s[1..]), Unit(f, d.views, s[0]), Kin(f, d.views, s);
    SameKids(f, d.views, Kin(f, d.views, s[1..]), f.Root(s[0]));
    ListMembers(d.views, Kin(f, d.views, s[1..]));
    assert s[0] in t.views;
    assert t.minimized - unit == h.minimized - u;
    FocusStep(f, t, s[0], unit, Keep(d.views, u) + Drop(d.views, u), h.minimized - u);
  }

  lemma FocusStep(f: Families, t: Desk, r: nat, unit: set<nat>, vs: seq<nat>, m: set<nat>)
    requires t.views != [] && Unit(f, t.views, r) == unit && unit * t.minimized * f.mapped != {}
    requires Raised(f, t.views, r) == vs && t.minimized - unit == m
    ensures Minimized(f, t, r, false) == Reset(t.(views := vs, minimized := m, active := Some(FocusTarget(f, vs, r))))
  {
  }

  lemma StillHidden(f: Families, d: Desk, h: Desk, s: seq<nat>)
    requires WellFormed(f, d) && Suffix(s, Shown(d)) && s != [] && s[0] in d.views
    requires h.minimized == d.minimized + Kin(f, d.views, Shown(d)) && f.Root(s[0]) !in Roots(f, s[1..])
    ensures Unit(f, d.views, s[0]) * (h.minimized - Kin(f, d.views, s[1..])) * f.mapped != {}
  {
    SuffixTail(s, Shown(d));
    UnitIsFamily(f, d, s[0]);
    assert s[0] in Kin(f, d.views, Shown(d));
    assert s[0] in Unit(f, d.views, s[0]) * (h.minimized - Kin(f, d.views, s[1..])) * f.mapped;
  }

  /**
   Two toggles: the views that were visible are in front, in their old order, followed by the others in
   theirs; the minimized set is the old one; the focus is where focusing the root of the frontmost family puts it.
   */
  lemma TwiceIsRoundTrip(f: Families, d: Desk)
    requires Fresh(f, d) && Uniform(f, d)
    ensures var t := Toggled(f, Toggled(f, d));
            && t.views == Shown(d) + Keep(d.views, d.minimized)
            && t.minimized == d.minimized && t.flags == {} && !t.showing
            && t.active == if Shown(d) == [] then None else Some(FocusTarget(f, t.views, f.Root(Shown(d)[0])))
  {
    HiddenDesk(f, d);
    var h, s := Toggled(f, d), Shown(d);
    KeepDropped(d.views, d.minimized);
    RestoringFamilies(f, d, h, s);
    TwiceRestoresMinimizedIff(f, d);
    KinIsShown(f, d);
  }

  /** With uniform families the relatives of the visible views are the visible views. */
  lemma KinIsShown(f: Families, d: Desk)
    requires WellFormed(f, d) && Uniform(f, d)
    ensures Keep(d.views, Kin(f, d.views, Shown(d))) == Shown(d)
    ensures Drop(d.views, Kin(f, d.views, Shown(d))) == Keep(d.views, d.minimized)
  {
    var kin := Kin(f, d.views, Shown(d));
    forall v | v in d.views ensures v in kin <==> v !in d.minimized {
      DropMembers(d.views, d.minimized, v);
      assert v in d.minimized * kin <==> v in d.minimized && v in kin;
    }
    KeepAsDrop(d.views, kin, d.minimized);
    KeepAsDrop(d.views, d.minimized, kin);
  }

  /** Both toggles together leave the order within the frontmost family as it was. */
  lemma ChildrenKeepOrder(f: Families, d: Desk, r: nat)
    requires WellFormed(f, d) && Uniform(f, d) && r in Roots(f, Shown(d))
    ensures ChildList(f, Shown(d) + Keep(d.views, d.minimized), r) == ChildList(f, d.views, r)
  {
    var vs := Shown(d) + Keep(d.views, d.minimized);
    forall v ensures v in vs <==> v in d.views {
      DropMembers(d.views, d.minimized, v);
      KeepMembers(d.views, d.minimized, v);
    }
    var kids := Kids(f, d.views, r);
    assert Kids(f, vs, r) == kids;
    forall v | v in kids ensures v !in d.minimized {
      assert v in d.minimized * Kin(f, d.views, Shown(d)) <==> v in d.minimized && v in Kin(f, d.views, Shown(d));
    }
    KeepConcat(Shown(d), Keep(d.views, d.minimized), kids);
    KeepOfDrop(d.views, d.minimized, kids);
    KeepOfKeep(d.views, d.minimized, kids);
    KeepNothing(d.views, d.minimized * kids);
    assert Keep(vs, kids) == Keep(d.views, kids);
  }

  /**
   The view that was active is active again exactly if it is the one that focusing its root would have
   selected before the first toggle: the backmost modal dialog of its family, or the root if there is none.
   */
  lemma RefocusesIff(f: Families, d: Desk)
    requires Fresh(f, d) && Uniform(f, d) && d.active.Some?
    ensures Toggled(f, Toggled(f, d)).active == d.active <==>
              d.active.value == FocusTarget(f, d.views, f.Root(d.active.value))
  {
    var a, s := d.active.value, Shown(d);
    TwiceIsRoundTrip(f, d);
    assert s[0] in s && f.Root(s[0]) in Roots(f, s);
    ChildrenKeepOrder(f, d, f.Root(a));
  }

  lemma BeforeInPair(x: nat, y: nat, a: nat, b: nat)
    ensures Before([x, y], a, b) ==> a == x && b == y
  {
    assert [x, y][1..] == [y] && [y][1..] == [];
    assert !Before([y], a, b);
  }

  lemma {:induction false} NoModal(f: Families, s: seq<nat>)
    requires f.modal == {}
    ensures FirstModal(f, s) == None
  {
    if s != [] {
      NoModal(f, s[1..]);
    }
  }

  /** View 1 with its plain dialog 2 in front. */
  const PARENT_AND_DIALOG := Families(map[2 := 1], {1, 2}, {})

  lemma PairIsFresh(d: Desk)
    requires d == Desk([2, 1], {}, {}, false, Some(2))
    ensures Fresh(PARENT_AND_DIALOG, d) && Uniform(PARENT_AND_DIALOG, d) && Shown(d) == [2, 1]
  {
    DropNothing([2, 1], {});
    forall a, b ensures Before(d.views, a, b) ==> a == 2 && b == 1 {
      BeforeInPair(2, 1, a, b);
    }
  }

  /** A plain dialog that was active loses the focus to its parent. */
  lemma PlainDialogLosesFocus(d: Desk)
    requires d == Desk([2, 1], {}, {}, false, Some(2))
    ensures Toggled(PARENT_AND_DIALOG, Toggled(PARENT_AND_DIALOG, d)).active == Some(1)
  {
    var f := PARENT_AND_DIALOG;
    PairIsFresh(d);
    TwiceIsRoundTrip(f, d);
    NoModal(f, ChildList(f, Toggled(f, Toggled(f, d)).views, 1));
  }

  /**
   If the active view is not the frontmost one, minimizing it moves the focus while others are still
   visible, which clears the flags: the second toggle brings nothing back.
   */
  lemma ActiveBehindLosesViews(f: Families, d: Desk)
    requires f == Families(map[], {1, 2}, {}) && d == Desk([1, 2], {}, {}, false, Some(2))
    ensures Shown(d) == [1, 2] && Toggled(f, Toggled(f, d)).minimized == {1, 2}
  {
    DropNothing([1, 2], {});
    var d1 := d.(flags := d.flags + Elements([1, 2]));
    assert [1, 2][1..] == [2] && [2][1..] == [];
    assert MinimizedAll(f, d1, [2], true) == Minimized(f, d1, 2, true);
    assert Unit(f, [1, 2], 2) == {2} && Unit(f, [1, 2], 1) == {1};
    assert Drop([1, 2], {2}) == [1] by {
      assert Drop([2], {2}) == [];
    }
    var d2 := Minimized(f, d1, 2, true);
    NoModal(f, ChildList(f, [1, 2], 1));
    assert d1.minimized + {2} == {2};
    assert d2 == Desk([1, 2], {2}, {}, false, Some(1));
    assert d2.minimized + {1} == {1, 2};
    assert Drop([1, 2], {1, 2}) == [] by {
      DropAll([1, 2], {1, 2});
    }
    assert Toggled(f, d) == Desk([1, 2], {1, 2}, {}, true, None);
    KeepNothing([1, 2], {});
  }
}
