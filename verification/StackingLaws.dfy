/** What raising and lowering do, view by view: who is in front of whom afterwards (src/view.c). */
module StackingLaws {

  import opened Order
  import opened Stacking

  /** v is a mapped relative of `view`, other than the root of the family. */
  predicate Relative(f: Families, view: nat, v: nat) {
    v in f.mapped && f.Root(v) == f.Root(view) && v != f.Root(view)
  }

  /** What is lowered: first everything else, then the relatives, the root behind all. */
  function LowerRank(f: Families, view: nat, v: nat): nat {
    if v == f.Root(view) then 2 else if Relative(f, view, v) then 1 else 0
  }

  /** After lowering, ranks decide; relatives have changed their order, all others of one rank have kept it. */
  predicate InFrontLowered(f: Families, vs: seq<nat>, view: nat, a: nat, b: nat) {
    var i, j := LowerRank(f, view, a), LowerRank(f, view, b);
    i < j || (i == j == 0 && Before(vs, a, b)) || (i == j == 1 && Before(vs, b, a))
  }

  /** What is raised: the view itself, its relatives, the root, then everything else. */
  function RaiseRank(f: Families, view: nat, v: nat): nat {
    if v == f.Root(view) then 2 else if v == view then 0 else if Relative(f, view, v) then 1 else 3
  }

  predicate InFrontRaised(f: Families, vs: seq<nat>, view: nat, a: nat, b: nat) {
    var i, j := RaiseRank(f, view, a), RaiseRank(f, view, b);
    i < j || (i == j && Before(vs, a, b))
  }

  lemma {:induction false} BeforeKeepIff(s: seq<nat>, keep: set<nat>, a: nat, b: nat)
    ensures Before(Keep(s, keep), a, b) <==> Before(s, a, b) && a in keep && b in keep
  {
    if s != [] {
      BeforeKeepIff(s[1..], keep, a, b);
      KeepMembers(s[1..], keep, b);
      BeforeMembers(Keep(s, keep), a, b);
      KeepMembers(s, keep, a);
      KeepMembers(s, keep, b);
    }
  }

  lemma {:induction false} BeforeDropIff(s: seq<nat>, drop: set<nat>, a: nat, b: nat)
    ensures Before(Drop(s, drop), a, b) <==> Before(s, a, b) && a !in drop && b !in drop
  {
    if s != [] {
      BeforeDropIff(s[1..], drop, a, b);
      DropMembers(s[1..], drop, b);
      BeforeMembers(Drop(s, drop), a, b);
      DropMembers(s, drop, a);
      DropMembers(s, drop, b);
    }
  }

  lemma {:induction false} BeforeReverseIff(s: seq<nat>, a: nat, b: nat)
    ensures Before(Reverse(s), a, b) <==> Before(s, b, a)
  {
    if s != [] {
      BeforeReverseIff(s[1..], a, b);
      BeforeConcat(Reverse(s[1..]), [s[0]], a, b);
      ReverseMembers(s[1..], a);
    }
  }

  /** The complete order after lowering: it is decided for every two views. */
  lemma LoweredIff(f: Families, vs: seq<nat>, view: nat, a: nat, b: nat)
    requires Listed(f, vs, view) && a in vs && b in vs
    ensures Before(Lowered(f, vs, view), a, b) <==> InFrontLowered(f, vs, view, a, b)
  {
    var r := f.Root(view);
    var kids := Kids(f, vs, r);
    var kept, rest := Keep(vs, kids), Drop(vs, kids + {r});
    BeforeConcat(rest + Reverse(kept), [r], a, b);
    BeforeConcat(rest, Reverse(kept), a, b);
    BeforeDropIff(vs, kids + {r}, a, b);
    BeforeReverseIff(kept, a, b);
    BeforeKeepIff(vs, kids, b, a);
    DropMembers(vs, kids + {r}, a);
    DropMembers(vs, kids + {r}, b);
    ReverseMembers(kept, a);
    ReverseMembers(kept, b);
    KeepMembers(vs, kids, a);
    KeepMembers(vs, kids, b);
  }

  /** A view that is in front, or whose descendant is, stays where it is. */
  lemma RaisedInFront(f: Families, vs: seq<nat>, view: nat)
    requires Listed(f, vs, view) && (vs[0] == view || f.Root(vs[0]) == view)
    ensures Raised(f, vs, view) == vs
  {
  }

  /** The complete order after raising any other view. */
  lemma RaisedIff(f: Families, vs: seq<nat>, view: nat, a: nat, b: nat)
    requires Listed(f, vs, view) && vs[0] != view && f.Root(vs[0]) != view && a in vs && b in vs
    ensures Before(Raised(f, vs, view), a, b) <==> InFrontRaised(f, vs, view, a, b)
  {
    var r := f.Root(view);
    var kids := Kids(f, vs, r);
    var head, kept, rest := if view == r then [] else [view], Keep(vs, kids - {view}), Drop(vs, kids + {r, view});
    BeforeConcat(head + kept + [r], rest, a, b);
    BeforeConcat(head + kept, [r], a, b);
    BeforeConcat(head, kept, a, b);
    BeforeDropIff(vs, kids + {r, view}, a, b);
    BeforeKeepIff(vs, kids - {view}, a, b);
    PartOf(f, vs, view, a);
    PartOf(f, vs, view, b);
    NotBeforeItself(vs, r);
    NotBeforeItself(vs, view);
  }

  /** The four parts of the raised list. */
  lemma PartOf(f: Families, vs: seq<nat>, view: nat, v: nat)
    requires Listed(f, vs, view) && v in vs
    ensures var r, rank := f.Root(view), RaiseRank(f, view, v);
            var kids := Kids(f, vs, r);
            && (v in (if view == r then [] else [view]) <==> rank == 0) && (v == r <==> rank == 2)
            && (v in Keep(vs, kids - {view}) <==> rank == 1) && (v in kids - {view} <==> rank == 1)
            && (v in Drop(vs, kids + {r, view}) <==> rank == 3) && (v in kids + {r, view} <==> rank != 3)
  {
    DropMembers(vs, Kids(f, vs, f.Root(view)) + {f.Root(view), view}, v);
    KeepMembers(vs, Kids(f, vs, f.Root(view)) - {view}, v);
  }

  lemma NotBeforeItself(s: seq<nat>, v: nat)
    requires Distinct(s)
    ensures !Before(s, v, v)
  {
    if Before(s, v, v) {
      var i, j := BeforeIndex(s, v, v);
    }
  }

  /** A list without repetitions is determined by its members and their order. */
  lemma {:induction false} OrderDetermines(s: seq<nat>, t: seq<nat>)
    requires Distinct(s) && Distinct(t) && multiset(s) == multiset(t)
    requires forall a, b :: a in s && b in s ==> (Before(s, a, b) <==> Before(t, a, b))
    ensures s == t
  {
    BagMembers(s, t);
    if s != [] {
      assert s[0] in s && t != [];
      assert t[0] in t;
      if s[0] != t[0] {
        assert t[0] in s[1..] && s[0] in t[1..];
        assert Before(s, s[0], t[0]) && Before(t, t[0], s[0]);
        BeforeTwice(t, t[0], s[0]);
        assert false;
      }
      TailsAgree(s, t);
      OrderDetermines(s[1..], t[1..]);
    } else {
      assert |multiset(t)| == 0;
    }
  }

  lemma BeforeTwice(s: seq<nat>, a: nat, b: nat)
    requires Distinct(s) && Before(s, a, b)
    ensures !Before(s, b, a)
  {
    if Before(s, b, a) {
      BeforeTransitive(s, a, b, a);
      NotBeforeItself(s, a);
    }
  }

  lemma TailsAgree(s: seq<nat>, t: seq<nat>)
    requires s != [] && t != [] && s[0] == t[0] && Distinct(s) && Distinct(t) && multiset(s) == multiset(t)
    requires forall a, b :: a in s && b in s ==> (Before(s, a, b) <==> Before(t, a, b))
    ensures Distinct(s[1..]) && Distinct(t[1..]) && multiset(s[1..]) == multiset(t[1..])
    ensures forall a, b :: a in s[1..] && b in s[1..] ==> (Before(s[1..], a, b) <==> Before(t[1..], a, b))
  {
    TailDistinct(s);
    TailDistinct(t);
    TailBags(s, t);
    BagMembers(s[1..], t[1..]);
    forall a, b | a in s[1..] && b in s[1..] ensures Before(s[1..], a, b) <==> Before(t[1..], a, b) {
      BeforeTail(s, a, b);
      BeforeTail(t, a, b);
    }
  }

  lemma TailBags(s: seq<nat>, t: seq<nat>)
    requires s != [] && t != [] && s[0] == t[0] && multiset(s) == multiset(t)
    ensures multiset(s[1..]) == multiset(t[1..])
  {
    assert s == [s[0]] + s[1..] && t == [t[0]] + t[1..];
    assert multiset(s[1..]) == multiset(s) - multiset{s[0]};
    assert multiset(t[1..]) == multiset(t) - multiset{t[0]};
  }

  lemma BeforeTail(s: seq<nat>, a: nat, b: nat)
    requires s != [] && Distinct(s) && a in s[1..]
    ensures a in s && (b in s[1..] ==> b in s) && (Before(s[1..], a, b) <==> Before(s, a, b))
  {
    TailDistinct(s);
    assert s == [s[0]] + s[1..];
  }

  /** So lowering is the only rearrangement that puts the family behind all others in this way. */
  lemma LoweredIsTheOnly(f: Families, vs: seq<nat>, view: nat, t: seq<nat>)
    requires Listed(f, vs, view) && Distinct(t) && multiset(t) == multiset(vs)
    requires forall a, b :: a in vs && b in vs ==> (Before(t, a, b) <==> InFrontLowered(f, vs, view, a, b))
    ensures t == Lowered(f, vs, view)
  {
    LowerPermutes(f, vs, view);
    BagMembers(t, vs);
    forall a, b | a in t && b in t ensures Before(t, a, b) <==> Before(Lowered(f, vs, view), a, b) {
      LoweredIff(f, vs, view, a, b);
    }
    OrderDetermines(t, Lowered(f, vs, view));
  }

  /** And raising the only one that puts it in front of them. */
  lemma RaisedIsTheOnly(f: Families, vs: seq<nat>, view: nat, t: seq<nat>)
    requires Listed(f, vs, view) && vs[0] != view && f.Root(vs[0]) != view && Distinct(t) && multiset(t) == multiset(vs)
    requires forall a, b :: a in vs && b in vs ==> (Before(t, a, b) <==> InFrontRaised(f, vs, view, a, b))
    ensures t == Raised(f, vs, view)
  {
    RaisePermutes(f, vs, view);
    BagMembers(t, vs);
    forall a, b | a in t && b in t ensures Before(t, a, b) <==> Before(Raised(f, vs, view), a, b) {
      RaisedIff(f, vs, view, a, b);
    }
    OrderDetermines(t, Raised(f, vs, view));
  }

  // ---- roots ----

  /** Every view that has a parent is above it on some scale: there are no cycles. */
  ghost predicate Acyclic(parent: map<nat, nat>, level: nat -> nat) {
    forall v :: v in parent ==> level(parent[v]) < level(v)
  }

  /** The end of the chain of parents. */
  ghost function Top(parent: map<nat, nat>, level: nat -> nat, v: nat): nat
    requires Acyclic(parent, level)
    decreases level(v)
  {
    if v in parent then Top(parent, level, parent[v]) else v
  }

  /** xdg_toplevel_view_get_root */
  method GetRoot(parent: map<nat, nat>, ghost level: nat -> nat, view: nat) returns (root: nat)
    requires Acyclic(parent, level)
    ensures root == Top(parent, level, view) && root !in parent
  {
    root := view;
    while root in parent
      invariant Top(parent, level, root) == Top(parent, level, view)
      decreases level(root)
    {
      root := parent[root];
    }
  }

  /** The families record the end of every chain. */
  ghost predicate Records(f: Families, parent: map<nat, nat>, level: nat -> nat)
    requires Acyclic(parent, level)
  {
    && f.root.Keys == parent.Keys
    && forall v :: v in parent ==> f.root[v] == Top(parent, level, v)
  }

  lemma {:induction false} TopIsTop(parent: map<nat, nat>, level: nat -> nat, v: nat)
    requires Acyclic(parent, level)
    ensures Top(parent, level, v) !in parent
    decreases level(v)
  {
    if v in parent {
      TopIsTop(parent, level, parent[v]);
    }
  }

  /** Then roots are sound: a root is its own, a view has that of its parent, and a view without a parent is a root. */
  lemma RootsAreTops(f: Families, parent: map<nat, nat>, level: nat -> nat, v: nat)
    requires Acyclic(parent, level) && Records(f, parent, level)
    ensures f.Sound() && f.Root(v) !in parent
    ensures f.Root(v) == if v in parent then f.Root(parent[v]) else v
  {
    forall u | u in f.root ensures f.Root(f.root[u]) == f.root[u] {
      TopIsTop(parent, level, u);
    }
    TopIsTop(parent, level, v);
  }

  // ---- runs ----

  /** A run is its first command and then the others. */
  lemma RestackedFirst(f: Families, vs: seq<nat>, c: Command, cs: seq<Command>)
    requires Listed(f, vs, c.view)
    ensures Raised(f, vs, c.view) != [] && Lowered(f, vs, c.view) != []
    ensures Restacked(f, vs, [c] + cs) == Restacked(f, if c.Raise? then Raised(f, vs, c.view) else Lowered(f, vs, c.view), cs)
    ensures Restacked(f, vs, []) == vs
  {
    assert ([c] + cs)[1..] == cs;
  }
}
