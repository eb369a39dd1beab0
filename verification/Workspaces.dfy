/** Workspaces, the windows on them, and their reconfiguration (src/workspaces.c). */
module Workspaces {

  import opened Options
  import Order

  /** A window: its workspace, and whether it follows every switch. */
  datatype View = View(workspace: nat, everywhere: bool, focusable: bool)

  /**
   * The list of workspace objects (numbered in order of creation, `made` of
   * them so far) with their names, the windows, and the window being dragged.
   */
  datatype State = State(all: seq<nat>, made: nat, names: map<nat, string>, views: seq<View>,
                         grabbed: Option<nat>, current: nat, last: Option<nat>)

  // ---- what holds between operations ----

  predicate ViewsLive(views: seq<View>, all: seq<nat>) {
    forall i :: 0 <= i < |views| ==> views[i].workspace in all
  }

  predicate ListSound(s: State) {
    && Order.Distinct(s.all)
    && (forall i :: 0 <= i < |s.all| ==> s.all[i] < s.made && s.all[i] in s.names)
  }

  predicate Live(s: State) {
    && ListSound(s)
    && ViewsLive(s.views, s.all)
    && s.current in s.all
    && (s.last.Some? ==> s.last.value in s.all)
    && GrabSound(s)
  }

  /** The window being dragged is one of the windows. */
  predicate GrabSound(s: State) {
    s.grabbed.Some? ==> s.grabbed.value < |s.views|
  }

  function Names(s: State): seq<string>
    requires ListSound(s)
  {
    seq(|s.all|, i requires 0 <= i < |s.all| => s.names[s.all[i]])
  }

  // ---- switching ----

  predicate Follows(s: State, i: nat)
    requires i < |s.views|
  {
    s.views[i].everywhere || s.grabbed == Some(i)
  }

  function Followed(s: State, target: nat): seq<View> {
    seq(|s.views|, i requires 0 <= i < |s.views| =>
      if Follows(s, i) then s.views[i].(workspace := target) else s.views[i])
  }

  function Switched(s: State, target: nat): State {
    if target == s.current then s
    else s.(views := Followed(s, target), last := Some(s.current), current := target)
  }

  // ---- reconfiguring ----

  /** Numbers of the next n workspaces to be made. */
  function Fresh(made: nat, n: nat): seq<nat> {
    seq(n, i requires 0 <= i < n => made + i)
  }

  /** The list for a configuration of n workspaces: the old one cut or extended. */
  function Resized(all: seq<nat>, made: nat, n: nat): seq<nat> {
    if n <= |all| then all[..n] else all + Fresh(made, n - |all|)
  }

  /** Where a window ends up once the workspaces `gone` have been destroyed one after another. */
  function Rehomed(s: State, gone: seq<nat>, home: nat, i: nat): View
    requires i < |s.views|
  {
    if s.views[i].workspace in gone || (s.current in gone && Follows(s, i)) then s.views[i].(workspace := home)
    else s.views[i]
  }

  /** What destroying `gone` leaves, without the intermediate states. */
  predicate Emptied(s: State, gone: seq<nat>, home: nat, t: State) {
    && |t.views| == |s.views|
    && (forall i :: 0 <= i < |s.views| ==> t.views[i] == Rehomed(s, gone, home, i))
    && t.current == (if s.current in gone then home else s.current)
    && t.last == (if s.current in gone || (s.last.Some? && s.last.value in gone) then Some(home) else s.last)
    && t.grabbed == s.grabbed
  }

  predicate Renamed(s: State, config: seq<string>, t: State) {
    && t.all == Resized(s.all, s.made, |config|)
    && t.made == s.made + (if |config| <= |s.all| then 0 else |config| - |s.all|)
    && ListSound(t)
    && Names(t) == config
  }

  /** The workspaces a shorter configuration gives up. */
  function Doomed(s: State, n: nat): seq<nat> {
    if n <= |s.all| then s.all[n..] else []
  }

  predicate Reconfigured(s: State, config: seq<string>, t: State)
    requires s.all != []
  {
    Renamed(s, config, t) && Emptied(s, Doomed(s, |config|), s.all[0], t)
  }

  // ---- searching for an occupied workspace ----

  predicate Occupied(views: seq<View>, workspace: nat) {
    exists i :: 0 <= i < |views| && Counts(views[i], workspace)
  }

  predicate Counts(v: View, workspace: nat) {
    v.focusable && !v.everywhere && v.workspace == workspace
  }

  class Manager {
    var all: seq<nat>
    var made: nat
    var names: map<nat, string>
    var views: seq<View>
    var grabbed: Option<nat>
    var current: nat
    var last: Option<nat>

    function Now(): State
      reads this
    {
      State(all, made, names, views, grabbed, current, last)
    }

    /** add_workspace */
    method Add(name: string)
      modifies this`all, this`made, this`names
      ensures all == old(all) + [old(made)] && made == old(made) + 1 && names == old(names)[old(made) := name]
    {
      all := all + [made];
      names := names[made := name];
      made := made + 1;
    }

    method SwitchTo(target: nat)
      requires GrabSound(Now())
      modifies this`views, this`current, this`last
      ensures Now() == Switched(old(Now()), target)
    {
      if target == current {
        return;
      }
      ghost var s := Now();
      var i := |views|;
      while i > 0
        invariant 0 <= i <= |views| == |s.views| && current == s.current
        invariant forall j :: 0 <= j < i ==> views[j] == s.views[j]
        invariant forall j :: i <= j < |views| ==>
                    views[j] == if s.views[j].everywhere then s.views[j].(workspace := target) else s.views[j]
      {
        i := i - 1;
        if views[i].everywhere {
          views := views[i := views[i].(workspace := target)];
        }
      }
      last := Some(current);
      current := target;
      if grabbed.Some? {
        views := views[grabbed.value := views[grabbed.value].(workspace := target)];
      }
      assert views == Followed(s, target);
    }

    method MoveAll(from: nat, to: nat)
      modifies this`views
      ensures |views| == |old(views)|
      ensures forall j :: 0 <= j < |views| ==>
                views[j] == if old(views)[j].workspace == from then old(views)[j].(workspace := to) else old(views)[j]
    {
      var i := 0;
      while i < |views|
        invariant 0 <= i <= |views| == |old(views)|
        invariant forall j :: 0 <= j < i ==>
                    views[j] == if old(views)[j].workspace == from then old(views)[j].(workspace := to) else old(views)[j]
        invariant forall j :: i <= j < |views| ==> views[j] == old(views)[j]
      {
        if views[i].workspace == from {
          views := views[i := views[i].(workspace := to)];
        }
        i := i + 1;
      }
    }

    /** The loop of workspaces_reconfigure that renames and adds; `ended` once the list is used up. */
    method Rename(config: seq<string>) returns (link: nat, ended: bool)
      requires ListSound(Now())
      modifies this`all, this`made, this`names
      ensures link == if |config| <= |old(all)| then |config| else |old(all)|
      ensures ended <==> |config| >= |old(all)|
      ensures Renaming(old(Now()), config, |config|, Now())
    {
      link, ended := 0, |all| == 0;
      ghost var s, n := Now(), |all|;
      for i := 0 to |config|
        invariant link == (if i <= n then i else n) && (ended <==> i >= n)
        invariant Renaming(s, config, i, Now())
      {
        ghost var t := Now();
        if ended {
          AddOne(s, config, i, t);
          Add(config[i]);
        } else {
          RenameOne(s, config, i, t);
          if names[all[link]] != config[i] {
            names := names[all[link] := config[i]];
          }
          link := link + 1;
          ended := link == |all|;
        }
      }
    }

    /** destroy_workspace */
    method Destroy(link: nat)
      requires link < |all| && ListSound(Now())
      modifies this`all, this`names
      ensures Shorter(old(Now()), link, Now())
    {
      names := names - {all[link]};
      all := all[..link] + all[link + 1..];
    }

    /** The windows, the current and the last workspace leave a doomed workspace. */
    method Leave(workspace: nat, home: nat)
      requires workspace != home && GrabSound(Now())
      modifies this`views, this`current, this`last
      ensures Emptied(old(Now()), [workspace], home, Now())
    {
      MoveAll(workspace, home);
      if current == workspace {
        SwitchTo(home);
      }
      if last == Some(workspace) {
        last := Some(home);
      }
    }

    /** One round of the loop that destroys what a shorter configuration gives up. */
    method DestroyNext(link: nat)
      requires 0 < link < |all| && ListSound(Now()) && GrabSound(Now())
      modifies this
      ensures Shorter(old(Now()), link, Now()) && Emptied(old(Now()), [old(all)[link]], old(all)[0], Now())
    {
      Leave(all[link], all[0]);
      Destroy(link);
    }

    /** workspaces_reconfigure */
    method Reconfigure(config: seq<string>)
      requires Live(Now()) && config != []
      modifies this
      ensures Reconfigured(old(Now()), config, Now())
    {
      ghost var s := Now();
      var link, ended := Rename(config);
      RenamedAll(s, config, Now());
      if ended {
        return;
      }
      ghost var k := 0;
      while link < |all|
        invariant link == |config| && Shrinking(s, config, k, Now())
        decreases |all|
      {
        ghost var t := Now();
        DestroyNext(link);
        ShrinkOne(s, config, k, t, Now());
        k := k + 1;
      }
      Shrunk(s, config, k, Now());
    }
  }

  /** The first i names of the configuration are in place; the list has grown where it was too short. */
  predicate Renaming(s: State, config: seq<string>, i: nat, t: State) {
    && i <= |config| && ListSound(t)
    && t.all == s.all + Fresh(s.made, if i <= |s.all| then 0 else i - |s.all|)
    && t == s.(all := t.all, names := t.names, made := s.made + if i <= |s.all| then 0 else i - |s.all|)
    && forall j :: 0 <= j < i ==> t.names[t.all[j]] == config[j]
  }

  lemma RenameOne(s: State, config: seq<string>, i: nat, t: State)
    requires Renaming(s, config, i, t) && i < |s.all| && i < |config|
    ensures Renaming(s, config, i + 1, t.(names := t.names[t.all[i] := config[i]]))
    ensures t.names[t.all[i]] == config[i] ==> Renaming(s, config, i + 1, t)
  {
    assert t.all == s.all;
  }

  lemma AddOne(s: State, config: seq<string>, i: nat, t: State)
    requires Renaming(s, config, i, t) && |s.all| <= i < |config|
    ensures Renaming(s, config, i + 1,
                     t.(all := t.all + [t.made], names := t.names[t.made := config[i]], made := t.made + 1))
  {
    assert Fresh(s.made, i + 1 - |s.all|) == Fresh(s.made, i - |s.all|) + [t.made];
  }

  /** Where the renaming loop leaves off: done, or with nothing destroyed yet. */
  lemma RenamedAll(s: State, config: seq<string>, t: State)
    requires Live(s) && config != [] && Renaming(s, config, |config|, t)
    ensures |config| >= |s.all| ==> Reconfigured(s, config, t)
    ensures |config| < |s.all| ==> Shrinking(s, config, 0, t)
  {
    NothingEmptied(s, t);
    if |config| < |s.all| {
      assert s.all[|config|..|config|] == [];
      assert t.all == s.all == s.all[..|config|] + s.all[|config|..];
    } else {
      assert Doomed(s, |config|) == [];
      assert |config| == |s.all| ==> s.all[..|config|] == s.all;
      assert Names(t) == config;
    }
  }

  lemma NothingEmptied(s: State, t: State)
    requires t.views == s.views && t.current == s.current && t.last == s.last && t.grabbed == s.grabbed && s.all != []
    ensures Emptied(s, [], s.all[0], t)
  {
  }

  /** The workspace at `link` is destroyed; the others keep their names. */
  predicate Shorter(s: State, link: nat, t: State)
    requires link < |s.all|
  {
    && t.all == s.all[..link] + s.all[link + 1..]
    && t.made == s.made
    && ListSound(t)
    && forall w <- t.all :: w in s.names && t.names[w] == s.names[w]
  }

  /** k of the workspaces a shorter configuration gives up have left the list. */
  predicate ShrinkingList(s: State, config: seq<string>, k: nat, t: State) {
    && 0 < |config| && |config| + k <= |s.all|
    && t.all == s.all[..|config|] + s.all[|config| + k..]
    && t.made == s.made
    && ListSound(t)
    && forall i :: 0 <= i < |config| ==> t.names[t.all[i]] == config[i]
  }

  /** They have also been left by windows and pointers. */
  predicate Shrinking(s: State, config: seq<string>, k: nat, t: State) {
    && ShrinkingList(s, config, k, t)
    && GrabSound(t)
    && Emptied(s, s.all[|config|..|config| + k], s.all[0], t)
  }

  lemma ShrinkOneList(s: State, config: seq<string>, k: nat, t: State, u: State)
    requires ShrinkingList(s, config, k, t) && |config| < |t.all| && Shorter(t, |config|, u)
    ensures ShrinkingList(s, config, k + 1, u)
    ensures t.all[|config|] == s.all[|config| + k] && t.all[0] == s.all[0]
  {
    forall i | 0 <= i < |config| ensures u.names[u.all[i]] == config[i] {
      assert u.all[i] == t.all[i];
    }
  }

  lemma ShrinkOneViews(s: State, m: nat, k: nat, t: State, u: State, next: nat, home: nat)
    requires Order.Distinct(s.all) && 0 < m && m + k < |s.all| && next == s.all[m + k] && home == s.all[0]
    requires Emptied(s, s.all[m..m + k], home, t) && Emptied(t, [next], home, u)
    ensures Emptied(s, s.all[m..m + (k + 1)], home, u)
  {
    assert s.all[m..m + k] + [next] == s.all[m..m + (k + 1)];
    EmptiedMore(s, s.all[m..m + k], next, home, t, u);
  }

  lemma GrabStays(s: State, gone: seq<nat>, home: nat, t: State)
    requires GrabSound(s) && Emptied(s, gone, home, t)
    ensures GrabSound(t)
  {
  }

  lemma ShrinkOne(s: State, config: seq<string>, k: nat, t: State, u: State)
    requires Order.Distinct(s.all) && Shrinking(s, config, k, t) && |config| < |t.all|
    requires Shorter(t, |config|, u) && Emptied(t, [t.all[|config|]], t.all[0], u)
    ensures Shrinking(s, config, k + 1, u)
  {
    var next, home := t.all[|config|], t.all[0];
    GrabStays(t, [next], home, u);
    ShrinkOneList(s, config, k, t, u);
    ShrinkOneViews(s, |config|, k, t, u, next, home);
  }

  lemma Shrunk(s: State, config: seq<string>, k: nat, t: State)
    requires Shrinking(s, config, k, t) && |t.all| == |config|
    ensures Reconfigured(s, config, t)
  {
    assert s.all[|config|..|config| + k] == s.all[|config|..];
    assert t.all == s.all[..|config|];
    assert Names(t) == config;
  }

  lemma EmptiedMore(s: State, gone: seq<nat>, workspace: nat, home: nat, t: State, u: State)
    requires Emptied(s, gone, home, t) && Emptied(t, [workspace], home, u)
    requires home !in gone + [workspace]
    ensures Emptied(s, gone + [workspace], home, u)
  {
    forall i | 0 <= i < |s.views| ensures u.views[i] == Rehomed(s, gone + [workspace], home, i) {
      assert u.views[i] == Rehomed(t, [workspace], home, i);
      assert t.views[i] == Rehomed(s, gone, home, i);
    }
  }
}
