/** What reconfigurations and other steps keep, and the search for the next occupied workspace. */
module WorkspaceRuns {

  import opened Options
  import Order
  import opened Workspaces

  /** A configuration names every workspace, keeps the objects both lists have, and strands no window. */
  lemma ReconfigureKeeps(s: State, config: seq<string>, t: State)
    requires Live(s) && config != [] && Reconfigured(s, config, t)
    ensures Live(t) && Names(t) == config && |t.views| == |s.views|
    ensures forall i :: 0 <= i < |s.all| && i < |config| ==> t.all[i] == s.all[i]
    ensures forall i :: |s.all| <= i < |config| ==> t.all[i] !in s.all
    ensures s.current in t.all ==> t.current == s.current
  {
    assert |Names(t)| == |config|;
    assert |t.all| == |config|;
    forall i | 0 <= i < |s.all| && i < |config| ensures t.all[i] == s.all[i] {
    }
    SurvivorsStay(s, |config|, t);
    assert t.all[0] == s.all[0];
    forall i | 0 <= i < |s.views| ensures t.views[i].workspace in t.all {
      assert t.views[i] == Rehomed(s, Doomed(s, |config|), s.all[0], i);
    }
  }

  lemma SurvivorsStay(s: State, n: nat, t: State)
    requires t.all == Resized(s.all, s.made, n)
    ensures forall w <- s.all :: w in t.all || w in Doomed(s, n)
    ensures Order.Distinct(s.all) ==> forall w <- Doomed(s, n) :: w !in t.all
  {
    forall w | w in s.all ensures w in t.all || w in Doomed(s, n) {
      var i :| 0 <= i < |s.all| && s.all[i] == w;
      if n <= |s.all| {
        assert if i < n then s.all[..n][i] == w else s.all[n..][i - n] == w;
      } else {
        assert t.all[i] == w;
      }
    }
  }

  /** A window on a workspace that stays is moved only if it follows the switch from a doomed one. */
  lemma OthersStay(s: State, config: seq<string>, t: State, i: nat)
    requires Live(s) && config != [] && Reconfigured(s, config, t) && i < |s.views|
    ensures t.views[i] == s.views[i].(workspace := t.views[i].workspace)
    ensures t.views[i].workspace == (if s.views[i].workspace in t.all && (s.current in t.all || !Follows(s, i))
                                     then s.views[i].workspace else t.all[0])
  {
    SurvivorsStay(s, |config|, t);
    assert |Names(t)| == |config|;
    assert t.all[0] == s.all[0];
    assert t.views[i] == Rehomed(s, Doomed(s, |config|), s.all[0], i);
  }

  lemma SwitchKeeps(s: State, target: nat)
    requires Live(s) && target in s.all
    ensures Live(Switched(s, target))
    ensures Switched(s, target).current == target
    ensures target != s.current ==> Switched(s, target).last == Some(s.current)
  {
  }

  /** Switching away and back leaves where every window that follows neither switch was. */
  lemma SwitchBack(s: State, target: nat)
    requires Live(s) && target in s.all && target != s.current
    ensures var t := Switched(Switched(s, target), s.current);
            && t.current == s.current && t.last == Some(target)
            && forall i :: 0 <= i < |s.views| ==>
                 t.views[i].workspace == if Follows(s, i) then s.current else s.views[i].workspace
  {
  }

  // ---- every run ----

  datatype Event =
    | Switch(target: nat)
    | Reconfigure(config: seq<string>)
    | Open(view: View)
    | Change(i: nat, view: View)
    | Close(i: nat)
    | Grab(grabbed: Option<nat>)

  /** The source opens windows on the current workspace and moves them to listed ones only. */
  predicate Step(s: State, e: Event, t: State) {
    match e
    case Switch(target) => target in s.all && t == Switched(s, target)
    case Reconfigure(config) => config != [] && s.all != [] && Reconfigured(s, config, t)
    case Open(v) => v.workspace == s.current && t == s.(views := [v] + s.views, grabbed := Opened(s.grabbed))
    case Change(i, v) => i < |s.views| && v.workspace in s.all && t == s.(views := s.views[i := v])
    case Close(i) =>
      i < |s.views| && t == s.(views := s.views[..i] + s.views[i + 1..], grabbed := Closed(s.grabbed, i))
    case Grab(g) => (g.Some? ==> g.value < |s.views|) && t == s.(grabbed := g)
  }

  /** The dragged window after one has been added in front of all. */
  function Opened(grabbed: Option<nat>): Option<nat> {
    if grabbed.Some? then Some(grabbed.value + 1) else None
  }

  /** The dragged window after the one at i has gone; its own end also ends the drag. */
  function Closed(grabbed: Option<nat>, i: nat): Option<nat> {
    if grabbed.None? || grabbed.value == i then None
    else if grabbed.value > i then Some(grabbed.value - 1)
    else grabbed
  }

  /** The events a run is made of, and the states between them. */
  predicate IsRun(states: seq<State>, events: seq<Event>) {
    |states| == |events| + 1 && forall k :: 0 <= k < |events| ==> Step(states[k], events[k], states[k + 1])
  }

  lemma StepKeepsLive(s: State, e: Event, t: State)
    requires Live(s) && Step(s, e, t)
    ensures Live(t)
  {
    match e {
      case Switch(target) => SwitchKeeps(s, target);
      case Reconfigure(config) => ReconfigureKeeps(s, config, t);
      case Close(i) => CloseKeeps(s, i, t);
      case _ =>
    }
  }

  lemma CloseKeeps(s: State, i: nat, t: State)
    requires Live(s) && Step(s, Close(i), t)
    ensures Live(t)
  {
    forall k | 0 <= k < |t.views| ensures t.views[k].workspace in t.all {
      assert t.views[k] == s.views[if k < i then k else k + 1];
    }
  }

  lemma {:induction false} RunsStayLive(states: seq<State>, events: seq<Event>, k: nat)
    requires IsRun(states, events) && Live(states[0]) && k < |states|
    ensures Live(states[k])
  {
    if k > 0 {
      RunsStayLive(states, events, k - 1);
      assert Step(states[k - 1], events[k - 1], states[k - 1 + 1]);
      StepKeepsLive(states[k - 1], events[k - 1], states[k]);
    }
  }

  // ---- the next occupied workspace ----

  /** The index d places after p, or before it, going round a list of n. */
  function Away(n: nat, p: nat, d: nat, reverse: bool): nat
    requires p < n && d < n
  {
    if reverse then (if d <= p then p - d else p - d + n)
    else if p + d < n then p + d else p + d - n
  }

  /** Whether d places from p are reached without going round, unless going round is allowed. */
  predicate Reachable(n: nat, p: nat, d: nat, wrap: bool, reverse: bool) {
    wrap || if reverse then d <= p else p + d < n
  }

  predicate OccupiedAway(s: State, p: nat, d: nat, wrap: bool, reverse: bool)
    requires p < |s.all|
  {
    0 < d < |s.all| && Reachable(|s.all|, p, d, wrap, reverse) &&
    Occupied(s.views, s.all[Away(|s.all|, p, d, reverse)])
  }

  predicate NoneNearer(s: State, p: nat, d: nat, wrap: bool, reverse: bool)
    requires p < |s.all|
  {
    forall e :: 0 < e < d ==> !OccupiedAway(s, p, e, wrap, reverse)
  }

  method HasViews(s: State, workspace: nat) returns (has: bool)
    ensures has == Occupied(s.views, workspace)
  {
    has := false;
    for i := 0 to |s.views|
      invariant forall j :: 0 <= j < i ==> !Counts(s.views[j], workspace)
    {
      if s.views[i].focusable && !s.views[i].everywhere && s.views[i].workspace == workspace {
        return true;
      }
    }
  }

  /**
   * The nearest other occupied workspace in the given direction. The position
   * |all| stands for the head of the circular list.
   */
  method AdjacentOccupied(s: State, p: nat, wrap: bool, reverse: bool) returns (r: Option<nat>, ghost d: nat)
    requires ListSound(s) && p < |s.all|
    ensures r.Some? ==> OccupiedAway(s, p, d, wrap, reverse) && NoneNearer(s, p, d, wrap, reverse)
    ensures r.Some? ==> r.value == s.all[Away(|s.all|, p, d, reverse)]
    ensures r.None? ==> NoneNearer(s, p, |s.all|, wrap, reverse)
  {
    var n := |s.all|;
    var link := Neighbour(n, p, reverse);
    var wrapped := false;
    d := 1;
    while true
      invariant 1 <= d <= n && NoneNearer(s, p, d, wrap, reverse)
      invariant wrapped ==> wrap
      invariant link <= n && (link == n ==> !wrapped && d == if reverse then p + 1 else n - p)
      invariant link < n ==> link == (if d < n then Away(n, p, d, reverse) else p)
      invariant link < n ==> (wrapped <==> !(if reverse then d <= p else p + d < n))
      decreases n - d, !wrapped
    {
      if link == n {
        if !wrap {
          break;
        }
        if wrapped {
          break;
        }
        link := Neighbour(n, n, reverse);
        wrapped := true;
        continue;
      }
      if link == p {
        break;
      }
      var occupied := HasViews(s, s.all[link]);
      if s.all[link] != s.all[p] && occupied {
        return Some(s.all[link]), d;
      }
      link := Neighbour(n, link, reverse);
      d := d + 1;
    }
    r := None;
  }

  /** The next or the previous position on a circular list of n with a head. */
  function Neighbour(n: nat, k: nat, reverse: bool): nat
    requires k <= n
  {
    if reverse then (if k == 0 then n else k - 1) else if k == n then 0 else k + 1
  }
}
