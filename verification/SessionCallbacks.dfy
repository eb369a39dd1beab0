/** The idle callback that a mapped lock surface leaves behind: exactly when it follows a dead pointer. */
module SessionCallbacks {

  import opened Options
  import opened SessionLock
  import opened SessionRuns

  lemma RefocusDoesNotFail(s: State, i: nat)
    requires i < |s.covers|
    ensures CoverLost(s, i).failed == SurfaceLost(s, i).failed == s.failed
  {
    RefocusForm(s, i);
  }

  lemma OthersDoNotFail(s: State, e: Event)
    requires Possible(s, e) && !s.failed && !e.MapIdle? && !e.StaleIdle?
    ensures !After(s, e).failed
  {
    if IsSeatEvent(e) {
      SeatEventForm(s, e);
    } else if e.SurfaceDestroyed? {
      RefocusDoesNotFail(s, Find(s.covers, e.output));
    } else if e.OutputDestroyed? {
      var t := s.(layout := s.layout - {e.output});
      if Find(s.covers, e.output) < |s.covers| {
        RefocusDoesNotFail(t, Find(s.covers, e.output));
      }
    }
  }

  /** A callback fails exactly if its cover is gone, or has no surface while nothing is focused. */
  lemma CallbackFailsIff(s: State, e: Event)
    requires Possible(s, e) && !s.failed
    ensures After(s, e).failed <==>
              e.StaleIdle? || (e.MapIdle? && s.focused.None? && s.covers[Find(s.covers, e.output)].surface.None?)
  {
    if !e.MapIdle? && !e.StaleIdle? {
      OthersDoNotFail(s, e);
    }
  }

  // ---- inputs that fail ----

  /** A lock surface on output 1 is destroyed between being mapped and the next idle moment. */
  const DESTROYED_EARLY: seq<Event> :=
    [OutputNew(1), Lock, Surface(1, 7), SurfaceMapped(1), SurfaceDestroyed(1), MapIdle(1)]

  /** The client unlocks between mapping its surface and the next idle moment. */
  const UNLOCKED_EARLY: seq<Event> :=
    [OutputNew(1), Lock, Surface(1, 7), SurfaceMapped(1), Unlock, StaleIdle]

  /** The session with output 1 covered by surface 7, which has been mapped. */
  const MAPPED := State(true, true, None, [LockOutput(1, Some(7))], [1], {}, {7}, None, false, true, multiset{1}, false, false)

  lemma Prepend(s: State, e: Event, es: seq<Event>, rest: seq<Event>)
    requires es == [e] + rest && Possible(s, e) && PossibleRun(After(s, e), rest)
    ensures PossibleRun(s, es) && AfterRun(s, es) == AfterRun(After(s, e), rest)
  {
    assert es[0] == e && es[1..] == rest;
  }

  /** One output, covered, without a surface yet. */
  lemma CoveringOne()
    ensures CoverAll([], [1]) == [LockOutput(1, None)]
  {
    assert [1][..0] == [];
    assert CoverAll([], []) == [];
  }

  /** The states on the way. */
  const OUTPUT_ONLY := START.(outputs := [1])
  const COVERED := MAPPED.(covers := [LockOutput(1, None)], mapped := {}, queued := multiset{})
  const UNMAPPED := MAPPED.(mapped := {}, queued := multiset{})

  lemma StepsToMapped()
    ensures After(START, OutputNew(1)) == OUTPUT_ONLY
    ensures After(OUTPUT_ONLY, Lock) == COVERED
    ensures Possible(COVERED, Surface(1, 7)) && After(COVERED, Surface(1, 7)) == UNMAPPED
    ensures Possible(UNMAPPED, SurfaceMapped(1)) && After(UNMAPPED, SurfaceMapped(1)) == MAPPED
  {
    CoveringOne();
  }

  lemma ReachesMapped(rest: seq<Event>)
    requires PossibleRun(MAPPED, rest)
    ensures var es := [OutputNew(1), Lock, Surface(1, 7), SurfaceMapped(1)] + rest;
            PossibleRun(START, es) && AfterRun(START, es) == AfterRun(MAPPED, rest)
  {
    StepsToMapped();
    var mapped := [SurfaceMapped(1)] + rest;
    var shown := [Surface(1, 7)] + mapped;
    var locked := [Lock] + shown;
    Prepend(UNMAPPED, SurfaceMapped(1), mapped, rest);
    Prepend(COVERED, Surface(1, 7), shown, mapped);
    Prepend(OUTPUT_ONLY, Lock, locked, shown);
    Prepend(START, OutputNew(1), [OutputNew(1)] + locked, locked);
    assert [OutputNew(1), Lock, Surface(1, 7), SurfaceMapped(1)] + rest == [OutputNew(1)] + locked;
  }

  lemma OneEvent(s: State, e: Event)
    requires Possible(s, e)
    ensures PossibleRun(s, [e]) && AfterRun(s, [e]) == After(s, e)
  {
    Prepend(s, e, [e], []);
  }

  lemma DestroyedEarlyFails()
    ensures PossibleRun(START, DESTROYED_EARLY) && AfterRun(START, DESTROYED_EARLY).failed
  {
    var t := After(MAPPED, SurfaceDestroyed(1));
    assert t.covers == [LockOutput(1, None)] && t.focused.None? && t.queued == multiset{1};
    OneEvent(t, MapIdle(1));
    Prepend(MAPPED, SurfaceDestroyed(1), [SurfaceDestroyed(1), MapIdle(1)], [MapIdle(1)]);
    ReachesMapped([SurfaceDestroyed(1), MapIdle(1)]);
    assert DESTROYED_EARLY == [OutputNew(1), Lock, Surface(1, 7), SurfaceMapped(1)] + [SurfaceDestroyed(1), MapIdle(1)];
  }

  lemma UnlockedEarlyFails()
    ensures PossibleRun(START, UNLOCKED_EARLY) && AfterRun(START, UNLOCKED_EARLY).failed
  {
    var t := After(MAPPED, Unlock);
    assert 1 in MAPPED.queued;
    assert t.stale;
    OneEvent(t, StaleIdle);
    Prepend(MAPPED, Unlock, [Unlock, StaleIdle], [StaleIdle]);
    ReachesMapped([Unlock, StaleIdle]);
    assert UNLOCKED_EARLY == [OutputNew(1), Lock, Surface(1, 7), SurfaceMapped(1)] + [Unlock, StaleIdle];
  }

  // ---- when a destroyed surface matters ----

  /** No surface other than cover i's is there to take the focus over. */
  predicate OnlySurface(s: State, i: nat)
    requires i < |s.covers|
  {
    forall j :: 0 <= j < |s.covers| && j != i ==> !HasMapped(s.covers[j], s.mapped)
  }

  /**
   * If a surface is destroyed while its callback is queued, the callback fails
   * exactly if nothing was focused, or this surface was and no other lock
   * surface is mapped.
   */
  lemma EarlyDestroyFailsIff(s: State, o: int)
    requires Sound(s) && !s.failed && HasSurface(s, o) && o in s.queued
    ensures var i, t := Find(s.covers, o), After(s, SurfaceDestroyed(o));
            && Possible(t, MapIdle(o))
            && (After(t, MapIdle(o)).failed <==>
                  s.focused.None? || (s.focused == s.covers[i].surface && OnlySurface(s, i)))
  {
    var i, t := Find(s.covers, o), After(s, SurfaceDestroyed(o));
    RefocusForm(s, i);
    SameFind(s.covers, i, None, o);
    CallbackFailsIff(t, MapIdle(o));
    FocusAfterLoss(s, i);
  }

  /** Losing a surface leaves no focus exactly if there was none, or it was the only mapped one and focused. */
  lemma FocusAfterLoss(s: State, i: nat)
    requires i < |s.covers| && s.covers[i].surface.Some?
    ensures SurfaceLost(s, i).focused.None? <==>
              s.focused.None? || (s.focused == s.covers[i].surface && OnlySurface(s, i))
  {
    NextMappedIsShown(s.covers, s.mapped, i, 0);
    var next := NextMapped(s.covers, s.mapped, i, 0);
    if next.None? {
      assert OnlySurface(s, i);
    } else {
      NextIsMapped(s.covers, s.mapped, i, 0);
    }
  }

  lemma {:induction false} NextIsMapped(covers: seq<LockOutput>, mapped: set<int>, i: nat, k: nat)
    requires k <= |covers| && NextMapped(covers, mapped, i, k).Some?
    ensures exists j :: k <= j < |covers| && j != i && HasMapped(covers[j], mapped)
    decreases |covers| - k
  {
    if !(k != i && HasMapped(covers[k], mapped)) {
      NextIsMapped(covers, mapped, i, k + 1);
    }
  }

  lemma {:induction false} SameFind(covers: seq<LockOutput>, i: nat, surface: Option<int>, o: int)
    requires i < |covers|
    ensures Find(covers[i := covers[i].(surface := surface)], o) == Find(covers, o)
  {
    if covers[0].output != o {
      if i > 0 {
        SameFind(covers[1..], i - 1, surface, o);
        assert covers[i := covers[i].(surface := surface)][1..] == covers[1..][i - 1 := covers[i].(surface := surface)];
      } else {
        assert covers[0 := covers[0].(surface := surface)][1..] == covers[1..];
      }
    }
  }

  // ---- runs that never fail ----

  /** Every queued callback has its cover and its surface. */
  predicate Calm(s: State) {
    !s.failed && !s.stale && forall o <- s.queued :: HasSurface(s, o)
  }

  /** No event takes a surface or a cover away from a queued callback. */
  predicate Prompt(s: State, e: Event) {
    match e
    case SurfaceDestroyed(o) => o !in s.queued
    case OutputDestroyed(o) => o !in s.queued
    case Unlock => s.queued == multiset{}
    case Lock => s.attached || s.queued == multiset{}
    case _ => true
  }

  predicate PromptRun(s: State, es: seq<Event>)
    requires PossibleRun(s, es)
    decreases |es|
  {
    es == [] || (Prompt(s, es[0]) && PromptRun(After(s, es[0]), es[1..]))
  }

  /** A cover with a surface for this output. */
  predicate Ready(covers: seq<LockOutput>, o: int) {
    exists i :: 0 <= i < |covers| && covers[i].output == o && covers[i].surface.Some?
  }

  lemma ReadyIff(s: State, o: int)
    requires UniqueOutputs(s.covers)
    ensures HasSurface(s, o) <==> Ready(s.covers, o)
  {
    var k := Find(s.covers, o);
    if i :| 0 <= i < |s.covers| && s.covers[i].output == o && s.covers[i].surface.Some? {
      assert k == i;
    }
  }

  predicate AllReady(covers: seq<LockOutput>, queued: multiset<int>) {
    forall o <- queued :: Ready(covers, o)
  }

  lemma CalmIff(s: State)
    requires UniqueOutputs(s.covers)
    ensures Calm(s) <==> !s.failed && !s.stale && AllReady(s.covers, s.queued)
  {
    forall o | o in s.queued ensures HasSurface(s, o) <==> Ready(s.covers, o) {
      ReadyIff(s, o);
    }
  }

  /** Covers with surfaces that are for queued callbacks are still there. */
  lemma StillReady(was: seq<LockOutput>, now: seq<LockOutput>, queued: multiset<int>)
    requires AllReady(was, queued)
    requires forall c <- was :: c.output in queued && c.surface.Some? ==> Ready(now, c.output)
    ensures AllReady(now, queued)
  {
    forall o | o in queued ensures Ready(now, o) {
      var i :| 0 <= i < |was| && was[i].output == o && was[i].surface.Some?;
      assert was[i] in was;
    }
  }

  lemma CoverStillReady(covers: seq<LockOutput>, output: int, queued: multiset<int>)
    requires AllReady(covers, queued)
    ensures AllReady(Cover(covers, output), queued)
  {
    var now := Cover(covers, output);
    forall c | c in covers && c.surface.Some? ensures Ready(now, c.output) {
      var i :| 0 <= i < |covers| && covers[i] == c;
      assert now == covers || now[i + 1] == c;
    }
    StillReady(covers, now, queued);
  }

  lemma UpdateStillReady(covers: seq<LockOutput>, i: nat, surface: Option<int>, queued: multiset<int>)
    requires i < |covers| && AllReady(covers, queued) && (surface.Some? || covers[i].output !in queued)
    ensures AllReady(covers[i := covers[i].(surface := surface)], queued)
  {
    var now := covers[i := covers[i].(surface := surface)];
    forall c | c in covers && c.output in queued && c.surface.Some? ensures Ready(now, c.output) {
      var k :| 0 <= k < |covers| && covers[k] == c;
      assert now[k].output == c.output && now[k].surface.Some?;
    }
    StillReady(covers, now, queued);
  }

  lemma RemoveStillReady(covers: seq<LockOutput>, i: nat, queued: multiset<int>)
    requires i < |covers| && AllReady(covers, queued) && covers[i].output !in queued
    ensures AllReady(covers[..i] + covers[i + 1..], queued) && queued[covers[i].output := 0] == queued
  {
    var now := covers[..i] + covers[i + 1..];
    forall c | c in covers && c.output in queued && c.surface.Some? ensures Ready(now, c.output) {
      var k :| 0 <= k < |covers| && covers[k] == c;
      assert k != i && now[if k < i then k else k - 1] == c;
    }
    StillReady(covers, now, queued);
  }

  lemma CoverLostForm(s: State, i: nat)
    requires i < |s.covers| && s.covers[i].output !in s.queued
    ensures var t := CoverLost(s, i);
            && t.covers == s.covers[..i] + s.covers[i + 1..]
            && t.queued == s.queued && t.stale == s.stale && t.failed == s.failed
  {
    RefocusForm(s, i);
    assert s.queued[s.covers[i].output := 0] == s.queued;
  }

  lemma OutputStaysCalm(s: State, o: int)
    requires Sound(s) && Calm(s) && o in s.outputs && o !in s.queued
    ensures Calm(OutputLost(s, o))
  {
    OutputLostKeeps(s, o);
    CalmIff(s);
    CalmIff(OutputLost(s, o));
    LostStillReady(s, o);
  }

  lemma LostStillReady(s: State, o: int)
    requires AllReady(s.covers, s.queued) && o !in s.queued
    ensures var t := OutputLost(s, o);
            AllReady(t.covers, t.queued) && t.stale == s.stale && t.failed == s.failed
  {
    var i := Find(s.covers, o);
    if i < |s.covers| {
      CoverLostForm(s.(layout := s.layout - {o}), i);
      RemoveStillReady(s.covers, i, s.queued);
    }
  }

  lemma SurfaceStaysCalm(s: State, e: Event)
    requires Sound(s) && Calm(s) && Possible(s, e) && Prompt(s, e) && (e.Surface? || e.SurfaceDestroyed?)
    ensures Calm(After(s, e))
  {
    StepKeeps(s, e);
    CalmIff(s);
    CalmIff(After(s, e));
    var i := Find(s.covers, e.output);
    if i < |s.covers| {
      UpdateStillReady(s.covers, i, if e.Surface? then Some(e.surface) else None, s.queued);
      RefocusForm(s, i);
    }
  }

  lemma MapStaysCalm(s: State, e: Event)
    requires Sound(s) && Calm(s) && Possible(s, e) && (e.SurfaceMapped? || e.MapIdle?)
    ensures Calm(After(s, e))
  {
    var i, t := Find(s.covers, e.output), After(s, e);
    assert t.covers == s.covers;
    forall o | o in t.queued ensures HasSurface(t, o) {
      assert o == e.output || o in s.queued;
    }
  }

  lemma EnabledStaysCalm(s: State, o: int)
    requires Sound(s) && Calm(s) && o in s.outputs
    ensures Calm(Enabled(s, o))
  {
    EnabledKeeps(s, o);
    CalmIff(s);
    CalmIff(Enabled(s, o));
    CoverStillReady(s.covers, o, s.queued);
  }

  lemma OtherStaysCalm(s: State, e: Event)
    requires Sound(s) && Calm(s) && Possible(s, e) && Prompt(s, e)
    requires !IsSeatEvent(e) && !e.OutputDestroyed? && !e.OutputEnabled? && !e.Surface? && !e.SurfaceDestroyed?
    requires !e.SurfaceMapped? && !e.MapIdle?
    ensures Calm(After(s, e))
  {
    var t := After(s, e);
    assert t.queued == s.queued && (t.covers == s.covers || s.queued == multiset{});
    forall o | o in t.queued ensures HasSurface(t, o) {
      assert HasSurface(s, o);
    }
  }

  lemma StepStaysCalm(s: State, e: Event)
    requires Sound(s) && Calm(s) && Possible(s, e) && Prompt(s, e)
    ensures Calm(After(s, e))
  {
    if IsSeatEvent(e) {
      SeatEventForm(s, e);
    } else if e.OutputDestroyed? {
      OutputStaysCalm(s, e.output);
    } else if e.OutputEnabled? {
      EnabledStaysCalm(s, e.output);
    } else if e.Surface? || e.SurfaceDestroyed? {
      SurfaceStaysCalm(s, e);
    } else if e.SurfaceMapped? || e.MapIdle? {
      MapStaysCalm(s, e);
    } else {
      OtherStaysCalm(s, e);
    }
  }

  /** A run in which queued callbacks keep their surface and their cover never follows a dead pointer. */
  lemma {:induction false} PromptRunsNeverFail(s: State, es: seq<Event>)
    requires Sound(s) && Calm(s) && PossibleRun(s, es) && PromptRun(s, es)
    ensures !AfterRun(s, es).failed
    decreases |es|
  {
    if es != [] {
      StepKeeps(s, es[0]);
      StepStaysCalm(s, es[0]);
      PromptRunsNeverFail(After(s, es[0]), es[1..]);
    }
  }
}
