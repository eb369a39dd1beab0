/** Which windows a switch takes along, and which count for a workspace (src/workspaces.c). */
module WorkspaceLaws {

  import opened Options
  import opened Workspaces
  import opened WorkspaceRuns

  /**
   Switching takes along the windows shown on all workspaces and the one that is being dragged; all others keep
   their workspace, and no window changes in any other way.
   */
  lemma SwitchTakesAlong(s: State, target: nat, i: nat)
    requires GrabSound(s) && i < |s.views| && target != s.current
    ensures var t := Switched(s, target);
            && |t.views| == |s.views| && t.views[i].everywhere == s.views[i].everywhere && t.views[i].focusable == s.views[i].focusable
            && (s.views[i].everywhere ==> t.views[i].workspace == target)
            && (s.grabbed == Some(i) ==> t.views[i].workspace == target)
            && (!s.views[i].everywhere && s.grabbed != Some(i) ==> t.views[i].workspace == s.views[i].workspace)
            && t.all == s.all && t.names == s.names && t.made == s.made && t.grabbed == s.grabbed
  {
  }

  /** Switching to the current workspace changes nothing at all. */
  lemma SwitchNowhere(s: State)
    ensures Switched(s, s.current) == s
  {
  }

  /** A window can be seen: it is on the current workspace. */
  predicate Seen(s: State, i: nat)
    requires i < |s.views|
  {
    s.views[i].workspace == s.current
  }

  /** A window for all workspaces can be seen. */
  predicate SeenEverywhere(s: State, i: nat) {
    i < |s.views| && s.views[i].everywhere && Seen(s, i)
  }

  lemma StepKeepsSeen(s: State, e: Event, t: State, i: nat)
    requires Live(s) && Step(s, e, t) && (e.Switch? || e.Reconfigure?) && SeenEverywhere(s, i)
    ensures SeenEverywhere(t, i)
  {
    if e.Reconfigure? {
      OthersStay(s, e.config, t, i);
      CurrentAfter(s, e.config, t);
    }
  }

  lemma RunStep(states: seq<State>, events: seq<Event>, k: nat)
    requires IsRun(states, events) && k < |events|
    ensures Step(states[k], events[k], states[k + 1])
  {
  }

  /** Windows for all workspaces are seen after every run of switches and reconfigurations in which they were seen at first. */
  lemma {:induction false} EverywhereStaysSeen(states: seq<State>, events: seq<Event>, k: nat, i: nat)
    requires IsRun(states, events) && Live(states[0]) && k < |states|
    requires forall j :: 0 <= j < |events| ==> events[j].Switch? || events[j].Reconfigure?
    requires SeenEverywhere(states[0], i)
    ensures SeenEverywhere(states[k], i)
  {
    if k > 0 {
      EverywhereStaysSeen(states, events, k - 1, i);
      RunsStayLive(states, events, k - 1);
      RunStep(states, events, k - 1);
      StepKeepsSeen(states[k - 1], events[k - 1], states[k], i);
    }
  }

  /** A reconfiguration stays on the current workspace and remembers the last one if they survive, and else goes to the first. */
  lemma CurrentAfter(s: State, config: seq<string>, t: State)
    requires Live(s) && config != [] && Reconfigured(s, config, t)
    ensures Live(t) && t.all != []
    ensures t.current == if s.current in t.all then s.current else t.all[0]
    ensures t.last == if s.current in t.all && (s.last.Some? ==> s.last.value in t.all) then s.last else Some(t.all[0])
    ensures t.grabbed == s.grabbed
  {
    ReconfigureKeeps(s, config, t);
    SurvivorsStay(s, |config|, t);
    assert |Names(t)| == |config|;
    assert t.all[0] == s.all[0];
  }

  /** A workspace is free of windows of its own. */
  lemma OccupiedIff(views: seq<View>, workspace: nat)
    ensures !Occupied(views, workspace) <==>
              forall v <- views :: v.workspace == workspace ==> v.everywhere || !v.focusable
  {
    if Occupied(views, workspace) {
      var i :| 0 <= i < |views| && Counts(views[i], workspace);
      assert views[i] in views;
    }
  }

  /** Names and objects after a reconfiguration: the common part is renamed in place, the surplus added or cut at the end. */
  lemma NamesAfter(s: State, config: seq<string>, t: State, i: nat)
    requires Live(s) && config != [] && Reconfigured(s, config, t) && i < |config|
    ensures |t.all| == |config| && t.all[i] in t.names && t.names[t.all[i]] == config[i]
    ensures t.all[i] == if i < |s.all| then s.all[i] else s.made + (i - |s.all|)
    ensures t.made - s.made == if |config| <= |s.all| then 0 else |config| - |s.all|
  {
    assert Names(t)[i] == config[i];
    assert |Names(t)| == |config|;
  }

  /** A window that is being dragged stays the dragged one when others come and go; its own end ends the drag. */
  lemma DraggedStays(s: State, e: Event, t: State)
    requires GrabSound(s) && s.grabbed.Some? && Step(s, e, t) && (e.Open? || e.Close?)
    ensures e == Close(s.grabbed.value) ==> t.grabbed == None
    ensures e != Close(s.grabbed.value) ==>
              t.grabbed.Some? && t.grabbed.value < |t.views| && t.views[t.grabbed.value] == s.views[s.grabbed.value]
  {
  }

  /** Going d places on a circle of n. */
  lemma AwayIs(n: nat, p: nat, d: nat, reverse: bool)
    requires p < n && d < n
    ensures Away(n, p, d, reverse) == (if reverse then p - d else p + d) % n
  {
    if reverse {
      WrapsOnce(n, p - d);
    } else {
      WrapsOnce(n, p + d);
    }
  }

  lemma WrapsOnce(n: int, k: int)
    requires 0 < n && -n < k < 2 * n
    ensures k % n == if k < 0 then k + n else if k < n then k else k - n
  {
    assert k == (k / n) * n + k % n;
    Multiple(k / n, n);
  }

  lemma Multiple(q: int, n: int)
    requires 0 < n
    ensures q >= 2 ==> q * n >= 2 * n
    ensures q <= -2 ==> q * n <= -2 * n
  {
  }

  /** Without going round, the place has to be on the list. */
  lemma ReachableIff(n: nat, p: nat, d: nat, wrap: bool, reverse: bool)
    requires p < n && d < n
    ensures Reachable(n, p, d, wrap, reverse) <==> wrap || 0 <= (if reverse then p - d else p + d) < n
  {
  }

  /** What is found is occupied, not the workspace itself, and in reach. */
  lemma OccupiedAwayIs(s: State, p: nat, d: nat, wrap: bool, reverse: bool)
    requires ListSound(s) && p < |s.all|
    ensures OccupiedAway(s, p, d, wrap, reverse) <==>
              && 0 < d < |s.all| && Reachable(|s.all|, p, d, wrap, reverse)
              && s.all[Away(|s.all|, p, d, reverse)] != s.all[p]
              && exists v <- s.views :: v.focusable && !v.everywhere && v.workspace == s.all[Away(|s.all|, p, d, reverse)]
  {
    if 0 < d < |s.all| {
      OccupiedIff(s.views, s.all[Away(|s.all|, p, d, reverse)]);
    }
  }
}
