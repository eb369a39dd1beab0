/** The stacking order of views and what raising and lowering do to families (src/view.c, src/xdg.c). */
module Stacking {
  import opened Order

  /** A view is known by its id; families are given by the most senior parent. */
  datatype Families = Families(root: map<nat, nat>, mapped: set<nat>, modal: set<nat>)
  {
    function Root(v: nat): nat {
      if v in root then root[v] else v
    }

    /** The root of a root is itself. */
    predicate Sound() {
      forall v :: v in root ==> Root(root[v]) == root[v]
    }
  }

  /** The mapped views other than r whose most senior parent is r (xdg_toplevel_view_append_children). */
  function Kids(f: Families, vs: seq<nat>, r: nat): set<nat> {
    set v | v in vs && v != r && v in f.mapped && f.Root(v) == r
  }

  /** Frontmost first: the view, its mapped siblings in their old order, its root, and everything else in its old order. */
  function Raised(f: Families, vs: seq<nat>, view: nat): seq<nat>
    requires vs != []
  {
    var r := f.Root(view);
    if view == vs[0] || view == f.Root(vs[0]) then vs
    else (if view == r then [] else [view]) + Keep(vs, Kids(f, vs, r) - {view}) + [r] + Drop(vs, Kids(f, vs, r) + {r, view})
  }

  /** Everything else in its old order, then the mapped children of the root in reverse, and the root last. */
  function Lowered(f: Families, vs: seq<nat>, view: nat): seq<nat> {
    var r := f.Root(view);
    Drop(vs, Kids(f, vs, r) + {r}) + Reverse(Keep(vs, Kids(f, vs, r))) + [r]
  }

  /** The list that the children are collected in runs from back to front. */
  function ChildList(f: Families, vs: seq<nat>, r: nat): seq<nat> {
    Reverse(Keep(vs, Kids(f, vs, r)))
  }

  predicate Listed(f: Families, vs: seq<nat>, view: nat) {
    f.Sound() && Distinct(vs) && view in vs && f.Root(view) in vs
  }

  // ---- moving several views one after the other ----

  /** The list after the views in `done` have been moved to the front one by one. */
  function Fronted(vs: seq<nat>, done: seq<nat>): seq<nat> {
    Reverse(done) + Drop(vs, Elements(done))
  }

  /** The list after they have been moved to the back one by one. */
  function Backed(vs: seq<nat>, done: seq<nat>): seq<nat> {
    Drop(vs, Elements(done)) + done
  }

  lemma NothingMoved(vs: seq<nat>)
    ensures Fronted(vs, []) == vs && Backed(vs, []) == vs
  {
    assert Elements([]) == {};
    DropNothing(vs, {});
  }

  lemma FrontStep(vs: seq<nat>, done: seq<nat>, c: nat)
    requires c !in done
    ensures [c] + Drop(Fronted(vs, done), {c}) == Fronted(vs, done + [c])
  {
    var front, rest := Reverse(done), Drop(vs, Elements(done));
    DropOfReversed(done, c);
    DropConcat(front, rest, {c});
    DropAgain(vs, Elements(done), {c});
    assert Elements(done) + {c} == Elements(done + [c]);
    ReverseLast(done, c);
    Regroup([c], front, Drop(vs, Elements(done + [c])));
  }

  lemma ReverseLast(done: seq<nat>, c: nat)
    ensures Reverse(done + [c]) == [c] + Reverse(done)
  {
    ReverseConcat(done, [c]);
    assert Reverse([c]) == [c];
  }

  lemma Regroup(a: seq<nat>, b: seq<nat>, c: seq<nat>)
    ensures a + (b + c) == (a + b) + c
  {
  }

  lemma DropOfReversed(done: seq<nat>, c: nat)
    requires c !in done
    ensures Drop(Reverse(done), {c}) == Reverse(done)
  {
    forall v | v in Reverse(done) ensures v !in {c} {
      ReverseMembers(done, v);
    }
    DropNothing(Reverse(done), {c});
  }

  lemma BackStep(vs: seq<nat>, done: seq<nat>, c: nat)
    requires c !in done
    ensures Drop(Backed(vs, done), {c}) + [c] == Backed(vs, done + [c])
  {
    DropConcat(Drop(vs, Elements(done)), done, {c});
    DropNothing(done, {c});
    DropAgain(vs, Elements(done), {c});
    assert Elements(done) + {c} == Elements(done + [c]);
  }

  lemma ChildListFacts(f: Families, vs: seq<nat>, r: nat)
    requires Distinct(vs)
    ensures Distinct(ChildList(f, vs, r)) && Elements(ChildList(f, vs, r)) == Kids(f, vs, r)
    ensures Reverse(ChildList(f, vs, r)) == Keep(vs, Kids(f, vs, r))
  {
    var kept := Keep(vs, Kids(f, vs, r));
    KeepDistinct(vs, Kids(f, vs, r));
    ReverseDistinct(kept);
    ReverseTwice(kept);
    forall v ensures v in ChildList(f, vs, r) <==> v in Kids(f, vs, r) {
      ReverseMembers(kept, v);
      KeepMembers(vs, Kids(f, vs, r), v);
    }
  }

  class Stack {
    const f: Families
    var views: seq<nat>

    constructor (f: Families, views: seq<nat>)
      ensures this.f == f && this.views == views
    {
      this.f, this.views := f, views;
    }

    method MoveToFront(v: nat)
      modifies this
      ensures views == [v] + Drop(old(views), {v})
    {
      views := [v] + Drop(views, {v});
    }

    method MoveToBack(v: nat)
      modifies this
      ensures views == Drop(old(views), {v}) + [v]
    {
      views := Drop(views, {v}) + [v];
    }

    method AppendChildren(self: nat) returns (children: seq<nat>)
      requires Distinct(views)
      ensures children == ChildList(f, views, self)
    {
      children := [];
      var k := |views|;
      ghost var kids := Kids(f, views, self);
      while k > 0
        invariant 0 <= k <= |views|
        invariant children == Reverse(Keep(views[k..], kids))
      {
        k := k - 1;
        var v := views[k];
        assert views[k..][1..] == views[k + 1..];
        if v != self && v in f.mapped && f.Root(v) == self {
          children := children + [v];
        }
      }
      assert views[0..] == views;
    }

    /** for_each_subview with move_to_front */
    method AllToFront(children: seq<nat>)
      requires Distinct(children)
      modifies this
      ensures views == Fronted(old(views), children)
    {
      ghost var vs := views;
      NothingMoved(vs);
      assert children[..0] == [];
      for k := 0 to |children|
        invariant views == Fronted(vs, children[..k])
      {
        FrontStep(vs, children[..k], children[k]);
        assert children[..k + 1] == children[..k] + [children[k]];
        MoveToFront(children[k]);
      }
      assert children[..|children|] == children;
    }

    /** for_each_subview with move_to_back */
    method AllToBack(children: seq<nat>)
      requires Distinct(children)
      modifies this
      ensures views == Backed(old(views), children)
    {
      ghost var vs := views;
      NothingMoved(vs);
      assert children[..0] == [];
      for k := 0 to |children|
        invariant views == Backed(vs, children[..k])
      {
        BackStep(vs, children[..k], children[k]);
        assert children[..k + 1] == children[..k] + [children[k]];
        MoveToBack(children[k]);
      }
      assert children[..|children|] == children;
    }

    /** view_move_to_front */
    method Raise(view: nat)
      requires Listed(f, views, view)
      modifies this
      ensures views == Raised(f, old(views), view)
    {
      var front := views[0];
      if view == front || view == f.Root(front) {
        return;
      }
      ghost var vs := views;
      var root := f.Root(view);
      MoveToFront(root);
      RootFirst(f, vs, root);
      ChildListFacts(f, views, root);
      var children := AppendChildren(root);
      AllToFront(children);
      if view != root {
        MoveToFront(view);
      }
      RaisedForm(f, vs, view, root);
    }

    /** view_move_to_back */
    method Lower(view: nat)
      requires Listed(f, views, view)
      modifies this
      ensures views == Lowered(f, old(views), view)
    {
      ghost var vs := views;
      var root := f.Root(view);
      ChildListFacts(f, vs, root);
      var children := AppendChildren(root);
      AllToBack(children);
      MoveToBack(root);
      assert root !in Elements(children);
      BackStep(vs, children, root);
      assert Elements(children + [root]) == Elements(children) + {root};
    }
  }

  /** Moving the root first changes neither the children nor their order. */
  lemma RootFirst(f: Families, vs: seq<nat>, r: nat)
    requires Distinct(vs) && r in vs
    ensures var vs1 := [r] + Drop(vs, {r});
            && Distinct(vs1) && Kids(f, vs1, r) == Kids(f, vs, r)
            && Keep(vs1, Kids(f, vs, r)) == Keep(vs, Kids(f, vs, r))
            && Drop(vs1, Kids(f, vs, r)) == [r] + Drop(vs, Kids(f, vs, r) + {r})
  {
    var vs1, kids := [r] + Drop(vs, {r}), Kids(f, vs, r);
    KeepDistinct(vs, {r});
    forall v ensures v in Drop(vs, {r}) <==> v in vs && v != r {
      DropMembers(vs, {r}, v);
    }
    KeepOfDrop(vs, {r}, kids);
    DropAgain(vs, {r}, kids);
    assert {r} + kids == kids + {r};
    assert vs1[1..] == Drop(vs, {r});
  }

  lemma RaisedForm(f: Families, vs: seq<nat>, view: nat, r: nat)
    requires Listed(f, vs, view) && r == f.Root(view)
    ensures var kids := Kids(f, vs, r);
            var block := Keep(vs, kids) + ([r] + Drop(vs, kids + {r}));
            (if view == r then block else [view] + Drop(block, {view}))
            == (if view == r then [] else [view]) + Keep(vs, kids - {view}) + [r] + Drop(vs, kids + {r, view})
  {
    if view == r {
      assert Kids(f, vs, r) - {view} == Kids(f, vs, r);
      assert Kids(f, vs, r) + {r, view} == Kids(f, vs, r) + {r};
    } else {
      BlockWithout(vs, Kids(f, vs, r), r, view);
    }
  }

  /** Taking the view itself out of its family's block. */
  lemma BlockWithout(vs: seq<nat>, kids: set<nat>, r: nat, view: nat)
    requires view != r
    ensures Drop(Keep(vs, kids) + ([r] + Drop(vs, kids + {r})), {view})
         == Keep(vs, kids - {view}) + [r] + Drop(vs, kids + {r, view})
  {
    var rest := Drop(vs, kids + {r});
    DropConcat(Keep(vs, kids), [r] + rest, {view});
    DropConcat([r], rest, {view});
    DropOfKeep(vs, kids, {view});
    DropAgain(vs, kids + {r}, {view});
    assert kids + {r} + {view} == kids + {r, view};
    assert Drop([r], {view}) == [r];
  }

  // ---- nothing is lost ----

  /** What ends up above everything else. */
  function RaisedBlock(f: Families, vs: seq<nat>, view: nat): seq<nat> {
    var r := f.Root(view);
    (if view == r then [] else [view]) + Keep(vs, Kids(f, vs, r) - {view}) + [r]
  }

  /** What ends up below everything else. */
  function LoweredBlock(f: Families, vs: seq<nat>, view: nat): seq<nat> {
    ChildList(f, vs, f.Root(view)) + [f.Root(view)]
  }

  lemma RaisedBlockFacts(f: Families, vs: seq<nat>, view: nat)
    requires Listed(f, vs, view)
    ensures var r := f.Root(view);
            && Distinct(RaisedBlock(f, vs, view))
            && (forall v :: v in RaisedBlock(f, vs, view) <==> v in Kids(f, vs, r) + {r, view})
            && RaisedBlock(f, vs, view)[|RaisedBlock(f, vs, view)| - 1] == r
  {
    var r := f.Root(view);
    var kids := Kids(f, vs, r);
    var head, kept := if view == r then [] else [view], Keep(vs, kids - {view});
    KeepDistinct(vs, kids - {view});
    forall v ensures v in kept <==> v in kids && v != view {
      KeepMembers(vs, kids - {view}, v);
    }
    DistinctConcat(head, kept);
    DistinctConcat(head + kept, [r]);
  }

  lemma LoweredBlockFacts(f: Families, vs: seq<nat>, view: nat)
    requires Listed(f, vs, view)
    ensures var r := f.Root(view);
            && Distinct(LoweredBlock(f, vs, view))
            && (forall v :: v in LoweredBlock(f, vs, view) <==> v in Kids(f, vs, r) + {r})
            && LoweredBlock(f, vs, view)[|LoweredBlock(f, vs, view)| - 1] == r
  {
    var r := f.Root(view);
    ChildListFacts(f, vs, r);
    var children := ChildList(f, vs, r);
    assert forall v :: v in children <==> v in Elements(children);
    DistinctConcat(children, [r]);
  }

  lemma BlockPermutes(vs: seq<nat>, block: seq<nat>, drop: set<nat>)
    requires Distinct(vs) && Distinct(block)
    requires forall v :: v in block <==> v in drop
    requires forall v :: v in drop ==> v in vs
    ensures Distinct(block + Drop(vs, drop)) && Distinct(Drop(vs, drop) + block)
    ensures multiset(block + Drop(vs, drop)) == multiset(vs) && multiset(Drop(vs, drop) + block) == multiset(vs)
  {
    KeepDistinct(vs, drop);
    forall v ensures v in Drop(vs, drop) <==> v in vs && v !in drop {
      DropMembers(vs, drop, v);
    }
    DistinctConcat(block, Drop(vs, drop));
    DistinctConcat(Drop(vs, drop), block);
    SameElements(block + Drop(vs, drop), vs);
    SameElements(Drop(vs, drop) + block, vs);
  }

  lemma RaisePermutes(f: Families, vs: seq<nat>, view: nat)
    requires Listed(f, vs, view)
    ensures Distinct(Raised(f, vs, view)) && multiset(Raised(f, vs, view)) == multiset(vs)
  {
    if view != vs[0] && view != f.Root(vs[0]) {
      var drop := Kids(f, vs, f.Root(view)) + {f.Root(view), view};
      RaisedBlockFacts(f, vs, view);
      BlockPermutes(vs, RaisedBlock(f, vs, view), drop);
      assert Raised(f, vs, view) == RaisedBlock(f, vs, view) + Drop(vs, drop);
    }
  }

  lemma LowerPermutes(f: Families, vs: seq<nat>, view: nat)
    requires Listed(f, vs, view)
    ensures Distinct(Lowered(f, vs, view)) && multiset(Lowered(f, vs, view)) == multiset(vs)
  {
    var drop := Kids(f, vs, f.Root(view)) + {f.Root(view)};
    LoweredBlockFacts(f, vs, view);
    BlockPermutes(vs, LoweredBlock(f, vs, view), drop);
    assert Lowered(f, vs, view) == Drop(vs, drop) + LoweredBlock(f, vs, view);
  }

  lemma BagMembers(s: seq<nat>, t: seq<nat>)
    requires multiset(s) == multiset(t)
    ensures forall v :: v in s <==> v in t
  {
    forall v ensures v in s <==> v in t {
      assert v in multiset(s) <==> v in multiset(t);
    }
  }

  // ---- families stay together ----

  /** Between two mapped members of a family there are, among mapped views, only members of that family. */
  ghost predicate Grouped(f: Families, vs: seq<nat>) {
    forall a, b, c :: Before(vs, a, b) && Before(vs, b, c) && a in f.mapped && b in f.mapped && c in f.mapped && f.Root(a) == f.Root(c)
      ==> f.Root(b) == f.Root(a)
  }

  /** No mapped member of a family is below its root. */
  ghost predicate RootLast(f: Families, vs: seq<nat>) {
    forall a, b :: Before(vs, a, b) && a in f.mapped && b in f.mapped && f.Root(a) == f.Root(b) ==> a != f.Root(a)
  }

  ghost predicate Together(f: Families, vs: seq<nat>) {
    Grouped(f, vs) && RootLast(f, vs)
  }

  /** A list that is a block and the rest in either order relates two views through one of the parts, or across. */
  lemma Across(block: seq<nat>, rest: seq<nat>, a: nat, b: nat)
    ensures Before(block + rest, a, b) ==> Before(block, a, b) || Before(rest, a, b) || (a in block && b in rest)
    ensures Before(rest + block, a, b) ==> Before(block, a, b) || Before(rest, a, b) || (a in rest && b in block)
    ensures Before(block, a, b) ==> a in block && b in block
    ensures Before(rest, a, b) ==> a in rest && b in rest
  {
    BeforeConcat(block, rest, a, b);
    BeforeConcat(rest, block, a, b);
    BeforeMembers(block, a, b);
    BeforeMembers(rest, a, b);
  }

  /** block consists of the family of r, and rest has no mapped member of it. */
  predicate Separate(f: Families, block: seq<nat>, rest: seq<nat>, r: nat) {
    && (forall v :: v in block ==> f.Root(v) == r && v !in rest)
    && (forall v :: v in rest && v in f.mapped ==> f.Root(v) != r)
  }

  lemma BlockKeepsGrouped(f: Families, block: seq<nat>, rest: seq<nat>, r: nat)
    requires Separate(f, block, rest, r) && Grouped(f, rest)
    ensures Grouped(f, block + rest) && Grouped(f, rest + block)
  {
    GroupedEitherWay(f, block, rest, r, block + rest);
    GroupedEitherWay(f, block, rest, r, rest + block);
  }

  lemma GroupedEitherWay(f: Families, block: seq<nat>, rest: seq<nat>, r: nat, all: seq<nat>)
    requires Separate(f, block, rest, r) && Grouped(f, rest) && (all == block + rest || all == rest + block)
    ensures Grouped(f, all)
  {
    forall a, b, c | Before(all, a, b) && Before(all, b, c) && a in f.mapped && b in f.mapped && c in f.mapped
                     && f.Root(a) == f.Root(c)
      ensures f.Root(b) == f.Root(a)
    {
      OneTriple(f, block, rest, r, a, b, c);
    }
  }

  lemma OneTriple(f: Families, block: seq<nat>, rest: seq<nat>, r: nat, a: nat, b: nat, c: nat)
    requires Separate(f, block, rest, r)
    requires a in f.mapped && b in f.mapped && c in f.mapped && f.Root(a) == f.Root(c)
    requires Before(rest, a, b) && Before(rest, b, c) ==> f.Root(b) == f.Root(a)
    ensures Before(block + rest, a, b) && Before(block + rest, b, c) ==> f.Root(b) == f.Root(a)
    ensures Before(rest + block, a, b) && Before(rest + block, b, c) ==> f.Root(b) == f.Root(a)
  {
    Across(block, rest, a, b);
    Across(block, rest, b, c);
  }

  lemma BlockKeepsRootLast(f: Families, block: seq<nat>, rest: seq<nat>, r: nat)
    requires Separate(f, block, rest, r) && RootLast(f, rest)
    requires forall b :: !Before(block, r, b)
    ensures RootLast(f, block + rest) && RootLast(f, rest + block)
  {
    forall s, a, b | (s == block + rest || s == rest + block) && Before(s, a, b)
                     && a in f.mapped && b in f.mapped && f.Root(a) == f.Root(b)
      ensures a != f.Root(a)
    {
      Across(block, rest, a, b);
    }
  }

  lemma DropKeepsTogether(f: Families, vs: seq<nat>, drop: set<nat>)
    requires Together(f, vs)
    ensures Together(f, Drop(vs, drop))
  {
    forall a, b ensures Before(Drop(vs, drop), a, b) ==> Before(vs, a, b) {
      BeforeInDrop(vs, drop, a, b);
    }
  }

  lemma BlockOf(f: Families, vs: seq<nat>, view: nat, block: seq<nat>, drop: set<nat>)
    requires Listed(f, vs, view) && Together(f, vs)
    requires Distinct(block)
    requires forall v :: v in block <==> v in drop
    requires drop == Kids(f, vs, f.Root(view)) + {f.Root(view), view}
    requires block != [] && block[|block| - 1] == f.Root(view)
    ensures Together(f, block + Drop(vs, drop)) && Together(f, Drop(vs, drop) + block)
  {
    var r, rest := f.Root(view), Drop(vs, drop);
    forall v ensures v in rest <==> v in vs && v !in drop {
      DropMembers(vs, drop, v);
    }
    RootOfRoot(f, view);
    forall b ensures !Before(block, r, b) {
      LastIsLast(block, b);
    }
    DropKeepsTogether(f, vs, drop);
    BlockKeepsGrouped(f, block, rest, r);
    BlockKeepsRootLast(f, block, rest, r);
  }

  lemma RootOfRoot(f: Families, v: nat)
    requires f.Sound()
    ensures f.Root(f.Root(v)) == f.Root(v)
  {
  }

  lemma {:induction false} LastIsLast(s: seq<nat>, b: nat)
    requires Distinct(s) && s != []
    ensures !Before(s, s[|s| - 1], b)
  {
    if |s| > 1 {
      LastIsLast(s[1..], b);
    }
  }

  lemma RaiseKeepsTogether(f: Families, vs: seq<nat>, view: nat)
    requires Listed(f, vs, view) && Together(f, vs)
    ensures Together(f, Raised(f, vs, view))
  {
    if view != vs[0] && view != f.Root(vs[0]) {
      var block, drop := RaisedBlock(f, vs, view), Kids(f, vs, f.Root(view)) + {f.Root(view), view};
      RaisedBlockFacts(f, vs, view);
      BlockOf(f, vs, view, block, drop);
      assert Raised(f, vs, view) == block + Drop(vs, drop);
    }
  }

  lemma LowerKeepsTogether(f: Families, vs: seq<nat>, view: nat)
    requires Listed(f, vs, view) && Together(f, vs)
    ensures Together(f, Lowered(f, vs, view))
  {
    var r := f.Root(view);
    var kids := Kids(f, vs, r);
    LoweredBlockFacts(f, vs, view);
    RootOfRoot(f, view);
    assert kids + {r, r} == kids + {r};
    BlockOf(f, vs, r, LoweredBlock(f, vs, view), kids + {r});
    assert Lowered(f, vs, view) == Drop(vs, kids + {r}) + LoweredBlock(f, vs, view);
  }

  // ---- runs ----

  datatype Command = Raise(view: nat) | Lower(view: nat)

  function Restacked(f: Families, vs: seq<nat>, cs: seq<Command>): seq<nat>
    requires vs != []
    decreases |cs|
  {
    if cs == [] then vs
    else
      var next := if cs[0].Raise? then Raised(f, vs, cs[0].view) else Lowered(f, vs, cs[0].view);
      Restacked(f, next, cs[1..])
  }

  /**
   No sequence of raises and lowers loses or duplicates a view, and if the mapped members of every family
   were together with the root at the bottom to begin with, they still are.
   */
  lemma {:induction false} RestackingKeepsFamilies(f: Families, vs: seq<nat>, cs: seq<Command>)
    requires f.Sound() && Distinct(vs) && vs != []
    requires forall c :: c in cs ==> c.view in vs && f.Root(c.view) in vs
    ensures multiset(Restacked(f, vs, cs)) == multiset(vs)
    ensures Together(f, vs) ==> Together(f, Restacked(f, vs, cs))
    decreases |cs|
  {
    if cs != [] {
      var c := cs[0];
      assert c in cs;
      var next := if c.Raise? then Raised(f, vs, c.view) else Lowered(f, vs, c.view);
      if c.Raise? {
        RaisePermutes(f, vs, c.view);
      } else {
        LowerPermutes(f, vs, c.view);
      }
      BagMembers(vs, next);
      if Together(f, vs) {
        if c.Raise? {
          RaiseKeepsTogether(f, vs, c.view);
        } else {
          LowerKeepsTogether(f, vs, c.view);
        }
      }
      RestackingKeepsFamilies(f, next, cs[1..]);
    }
  }
}
