/** Runs of lock requests, outputs coming and going, and attempts to take the keyboard focus. */
module SessionRuns {

  import opened Options
  import Order
  import opened SessionLock

  datatype Event =
    | Lock
    | Unlock
    | Abandon
    | Surface(output: int, surface: int)
    | SurfaceMapped(output: int)
    | MapIdle(output: int)
    | StaleIdle
    | SurfaceUnmapped(surface: int)
    | SurfaceDestroyed(output: int)
    | OutputNew(output: int)
    | OutputEnabled(output: int)
    | OutputDisabled(output: int)
    | OutputDestroyed(output: int)
    | FocusSurface(wanted: Option<int>)
    | ForceFocus(surface: int)
    | FocusLayer(surface: int, exclusive: bool)
    | LayerGone
    | OverrideBegins
    | OverrideEnds(restored: Option<int>)
    | ClientSurfaceGone(surface: int)

  /** The output is covered, and the cover has a surface. */
  predicate HasSurface(s: State, output: int) {
    var i := Find(s.covers, output);
    i < |s.covers| && s.covers[i].surface.Some?
  }

  /** What the protocol and wlroots let happen. */
  predicate Possible(s: State, e: Event) {
    match e
    case Unlock => s.attached
    case Abandon => s.attached
    case Surface(o, surface) =>
      s.attached && !HasSurface(s, o) && !Shown(s.covers, Some(surface))
    case SurfaceMapped(o) => HasSurface(s, o)
    case MapIdle(o) => o in s.queued && Find(s.covers, o) < |s.covers|
    case StaleIdle => s.stale
    case SurfaceDestroyed(o) => HasSurface(s, o)
    case OutputNew(o) => o !in s.outputs
    case OutputEnabled(o) => o in s.outputs
    case OutputDestroyed(o) => o in s.outputs
    case OverrideBegins => s.passthrough
    case ClientSurfaceGone(surface) => !Shown(s.covers, Some(surface))
    case _ => true
  }

  /** Nothing happens after a failed callback: the compositor is gone. */
  function After(s: State, e: Event): State
    requires Possible(s, e)
  {
    if s.failed then s else Handled(s, e)
  }

  function Handled(s: State, e: Event): State
    requires Possible(s, e)
  {
    match e
    case Lock => NewLock(s)
    case Unlock => Uncovered(s).(locked := false)
    case Abandon => s.(attached := false)
    case Surface(o, surface) => NewSurface(s, o, surface)
    case SurfaceMapped(o) => MapQueued(s, Find(s.covers, o))
    case MapIdle(o) => MapHandled(s, Find(s.covers, o))
    case StaleIdle => s.(failed := true)
    case SurfaceUnmapped(surface) => s.(mapped := s.mapped - {surface})
    case SurfaceDestroyed(o) => SurfaceLost(s, Find(s.covers, o))
    case OutputNew(o) => s.(outputs := [o] + s.outputs)
    case OutputEnabled(o) => Enabled(s, o)
    case OutputDisabled(o) => s.(layout := s.layout - {o})
    case OutputDestroyed(o) => OutputLost(s, o)
    case FocusSurface(wanted) => SurfaceFocused(s, wanted)
    case ForceFocus(surface) => ForceFocused(s, surface)
    case FocusLayer(surface, exclusive) => LayerFocused(s, surface, exclusive)
    case LayerGone => s.(exclusiveLayer := false)
    case OverrideBegins => OverrideBegun(s)
    case OverrideEnds(restored) => OverrideEnded(s, restored)
    case ClientSurfaceGone(surface) => if s.focus == Some(surface) then s.(focus := None) else s
  }

  // ---- covers ----

  /** Some cover is for this output: the search finds one. */
  lemma FoundIff(covers: seq<LockOutput>, output: int)
    ensures Find(covers, output) < |covers| <==> exists i :: 0 <= i < |covers| && covers[i].output == output
  {
    if Find(covers, output) < |covers| {
      assert covers[Find(covers, output)].output == output;
    }
  }

  lemma CoverKeeps(covers: seq<LockOutput>, output: int)
    requires UniqueOutputs(covers) && UniqueSurfaces(covers)
    ensures var after := Cover(covers, output);
            && UniqueOutputs(after) && UniqueSurfaces(after)
            && Find(after, output) < |after|
            && (forall o :: Find(covers, o) < |covers| ==> Find(after, o) < |after|)
            && (forall x: Option<int> :: x.Some? && Shown(covers, x) ==> Shown(after, x))
  {
    var after := Cover(covers, output);
    FoundIff(after, output);
    if after != covers {
      assert after[0].output == output;
      forall o | Find(covers, o) < |covers| ensures Find(after, o) < |after| {
        assert after[1 + Find(covers, o)] == covers[Find(covers, o)];
      }
      forall x: Option<int> | x.Some? && Shown(covers, x) ensures Shown(after, x) {
        var i :| 0 <= i < |covers| && covers[i].surface == x;
        assert after[i + 1].surface == x;
      }
    }
  }

  /** Covers for all of the outputs and no others, one for each, without surfaces. */
  predicate CoversExactly(covers: seq<LockOutput>, outputs: seq<int>) {
    && UniqueOutputs(covers) && UniqueSurfaces(covers)
    && (forall o <- outputs :: Find(covers, o) < |covers|)
    && CoversLive(covers, outputs)
    && forall i :: 0 <= i < |covers| ==> covers[i].surface.None?
  }

  lemma {:induction false} CoverAllCovers(outputs: seq<int>)
    ensures CoversExactly(CoverAll([], outputs), outputs)
  {
    if outputs != [] {
      var n := |outputs| - 1;
      CoverAllCovers(outputs[..n]);
      assert outputs == outputs[..n] + [outputs[n]];
      CoverOneMore(CoverAll([], outputs[..n]), outputs[..n], outputs[n]);
    }
  }

  lemma CoverOneMore(covers: seq<LockOutput>, outputs: seq<int>, o: int)
    requires CoversExactly(covers, outputs)
    ensures CoversExactly(Cover(covers, o), outputs + [o])
  {
    CoverKeeps(covers, o);
    forall p | p in outputs + [o] ensures Find(Cover(covers, o), p) < |Cover(covers, o)| {
      assert p == o || p in outputs;
    }
  }

  lemma WithoutKeeps(covers: seq<LockOutput>, i: nat)
    requires i < |covers| && UniqueOutputs(covers) && UniqueSurfaces(covers)
    ensures var rest := covers[..i] + covers[i + 1..];
            && UniqueOutputs(rest) && UniqueSurfaces(rest)
            && (forall o :: o != covers[i].output && Find(covers, o) < |covers| ==> Find(rest, o) < |rest|)
            && forall k :: 0 <= k < |rest| ==> rest[k].output != covers[i].output && rest[k] in covers
  {
    var rest := covers[..i] + covers[i + 1..];
    forall k | 0 <= k < |rest| ensures rest[k] == covers[if k < i then k else k + 1] {
    }
    forall o | o != covers[i].output && Find(covers, o) < |covers| ensures Find(rest, o) < |rest| {
      var j := Find(covers, o);
      assert rest[if j < i then j else j - 1] == covers[j];
    }
  }

  // ---- every step ----

  lemma {:induction false} RemoveKeeps(outputs: seq<int>, output: int)
    requires Order.Distinct(outputs)
    ensures Order.Distinct(Remove(outputs, output))
    ensures forall o :: o in Remove(outputs, output) <==> o in outputs && o != output
  {
    if outputs != [] {
      var rest := outputs[1..];
      RemoveKeeps(rest, output);
      assert outputs[0] !in rest by {
        forall k | 0 <= k < |rest| ensures rest[k] != outputs[0] {
          assert outputs[k + 1] != outputs[0];
        }
      }
      assert outputs == [outputs[0]] + rest;
    }
  }

  lemma CoverLostManager(s: State, i: nat)
    requires i < |s.covers| && ManagerSound(s) && s.locked && s.covers[i].output !in s.layout
    ensures ManagerSound(CoverLost(s, i))
  {
    CoverLostShown(s, i);
    CoverLostElsewhere(s, i);
    WithoutKeeps(s.covers, i);
    assert CoverLost(s, i).covers == s.covers[..i] + s.covers[i + 1..];
  }

  lemma CoverLostOutputs(s: State, i: nat)
    requires i < |s.covers| && OutputsSound(s)
    ensures OutputsSound(CoverLost(s, i))
  {
    CoverLostElsewhere(s, i);
    var t := CoverLost(s, i);
    forall k | 0 <= k < |t.covers| ensures t.covers[k].output in t.outputs {
      assert t.covers[k] == s.covers[if k < i then k else k + 1];
    }
  }

  lemma CoverLostFocus(s: State, i: nat)
    requires i < |s.covers| && FocusSound(s) && s.locked
    ensures FocusSound(CoverLost(s, i))
    ensures Guarded(s) ==> Guarded(CoverLost(s, i))
  {
    RefocusForm(s, i);
  }

  lemma CoverLostKeeps(s: State, i: nat)
    requires i < |s.covers| && Sound(s) && s.locked
    requires s.covers[i].output !in s.layout
    ensures Sound(CoverLost(s, i))
    ensures Guarded(s) ==> Guarded(CoverLost(s, i))
  {
    CoverLostManager(s, i);
    CoverLostOutputs(s, i);
    CoverLostFocus(s, i);
    CoverLostQueues(s, i);
  }

  lemma CoverLostQueues(s: State, i: nat)
    requires i < |s.covers| && UniqueOutputs(s.covers) && UniqueSurfaces(s.covers) && AllFound(s.covers, s.queued)
    ensures AllFound(CoverLost(s, i).covers, CoverLost(s, i).queued)
  {
    WithoutKeeps(s.covers, i);
    var t := CoverLost(s, i);
    assert t.covers == s.covers[..i] + s.covers[i + 1..];
    forall o | o in t.queued ensures Find(t.covers, o) < |t.covers| {
      assert o != s.covers[i].output && o in s.queued;
    }
  }

  lemma DropOutput(s: State, output: int)
    requires Sound(s) && output !in s.layout
    requires forall k :: 0 <= k < |s.covers| ==> s.covers[k].output != output
    ensures Sound(s.(outputs := Remove(s.outputs, output)))
  {
    RemoveKeeps(s.outputs, output);
  }

  lemma LeaveLayout(s: State, output: int)
    requires Sound(s)
    ensures Sound(s.(layout := s.layout - {output}))
  {
  }

  lemma CoveredOutputLost(s: State, i: nat)
    requires i < |s.covers| && Sound(s) && s.covers[i].output !in s.layout
    ensures var t := CoverLost(s, i);
            Sound(t.(outputs := Remove(t.outputs, s.covers[i].output))) && (Guarded(s) ==> Guarded(t))
  {
    CoverLostKeeps(s, i);
    WithoutKeeps(s.covers, i);
    assert CoverLost(s, i).covers == s.covers[..i] + s.covers[i + 1..];
    DropOutput(CoverLost(s, i), s.covers[i].output);
  }

  lemma OutputLostKeeps(s: State, output: int)
    requires Sound(s) && output in s.outputs
    ensures Sound(OutputLost(s, output))
    ensures Guarded(s) ==> Guarded(OutputLost(s, output))
  {
    var i := Find(s.covers, output);
    var t := s.(layout := s.layout - {output});
    LeaveLayout(s, output);
    if i < |s.covers| {
      CoveredOutputLost(t, i);
    } else {
      DropOutput(t, output);
    }
  }

  lemma SetSurface(covers: seq<LockOutput>, i: nat, surface: Option<int>)
    requires i < |covers| && UniqueOutputs(covers) && UniqueSurfaces(covers)
    requires surface.Some? ==> !Shown(covers, surface)
    ensures var after := covers[i := covers[i].(surface := surface)];
            && UniqueOutputs(after) && UniqueSurfaces(after)
            && (forall o :: Find(covers, o) < |covers| ==> Find(after, o) < |after|)
            && (forall x: Option<int> :: x != covers[i].surface && Shown(covers, x) ==> Shown(after, x))
  {
    var after := covers[i := covers[i].(surface := surface)];
    forall o | Find(covers, o) < |covers| ensures Find(after, o) < |after| {
      assert after[Find(covers, o)].output == o;
    }
    forall x: Option<int> | x != covers[i].surface && Shown(covers, x) ensures Shown(after, x) {
      var k :| 0 <= k < |covers| && covers[k].surface == x;
      assert after[k] == covers[k];
    }
  }

  lemma SurfaceLostShown(s: State, i: nat)
    requires i < |s.covers| && s.covers[i].surface.Some? && UniqueOutputs(s.covers) && UniqueSurfaces(s.covers)
    requires s.focused.Some? ==> Shown(s.covers, s.focused)
    ensures var t := SurfaceLost(s, i); t.focused.Some? ==> s.focused.Some? && Shown(t.covers, t.focused)
  {
    SetSurface(s.covers, i, None);
    NextMappedIsShown(s.covers, s.mapped, i, 0);
    var t := SurfaceLost(s, i);
    if t.focused.Some? && s.focused == s.covers[i].surface {
      var k :| 0 <= k < |s.covers| && k != i && s.covers[k].surface == t.focused;
      assert t.covers[k] == s.covers[k];
    }
  }

  lemma SurfaceLostKeeps(s: State, i: nat)
    requires i < |s.covers| && Sound(s) && s.covers[i].surface.Some?
    ensures Sound(SurfaceLost(s, i))
    ensures Guarded(s) ==> Guarded(SurfaceLost(s, i))
  {
    SetSurface(s.covers, i, None);
    RefocusForm(s, i);
    SurfaceLostShown(s, i);
  }

  lemma NewSurfaceKeeps(s: State, output: int, surface: int)
    requires Sound(s) && !HasSurface(s, output) && !Shown(s.covers, Some(surface))
    ensures Sound(NewSurface(s, output, surface))
  {
    var i := Find(s.covers, output);
    if i < |s.covers| {
      SetSurface(s.covers, i, Some(surface));
    }
  }

  lemma NewLockKeeps(s: State)
    requires Sound(s)
    ensures Sound(NewLock(s)) && NewLock(s).locked
    ensures s.locked && Guarded(s) ==> Guarded(NewLock(s))
  {
    CoverAllCovers(s.outputs);
  }

  lemma EnabledManager(s: State, output: int)
    requires ManagerSound(s)
    ensures ManagerSound(Enabled(s, output))
  {
    CoverKeeps(s.covers, output);
  }

  lemma EnabledOutputs(s: State, output: int)
    requires OutputsSound(s) && output in s.outputs
    ensures OutputsSound(Enabled(s, output))
  {
  }

  lemma EnabledKeeps(s: State, output: int)
    requires Sound(s) && output in s.outputs
    ensures Sound(Enabled(s, output))
  {
    EnabledManager(s, output);
    EnabledOutputs(s, output);
    CoverKeeps(s.covers, output);
  }

  lemma MapQueuedKeeps(s: State, i: nat)
    requires i < |s.covers| && s.covers[i].surface.Some? && Sound(s)
    ensures Sound(MapQueued(s, i))
  {
    FoundIff(s.covers, s.covers[i].output);
    var t := MapQueued(s, i);
    forall o | o in t.queued ensures Find(t.covers, o) < |t.covers| {
      assert o == s.covers[i].output || o in s.queued;
    }
  }

  lemma QueueShrinks(covers: seq<LockOutput>, queued: multiset<int>, o: int)
    requires AllFound(covers, queued)
    ensures AllFound(covers, queued - multiset{o})
  {
    forall p | p in queued - multiset{o} ensures Find(covers, p) < |covers| {
      assert p in queued;
    }
  }

  lemma MapHandledKeeps(s: State, i: nat)
    requires i < |s.covers| && Sound(s)
    ensures Sound(MapHandled(s, i))
    ensures Guarded(s) ==> Guarded(MapHandled(s, i))
  {
    var t := s.(queued := s.queued - multiset{s.covers[i].output});
    QueueShrinks(s.covers, s.queued, s.covers[i].output);
    assert Sound(t);
    if s.focused.None? && s.covers[i].surface.Some? {
      assert Shown(s.covers, s.covers[i].surface);
      FocusedKeeps(t, s.covers[i].surface);
    }
  }

  lemma FocusedKeeps(s: State, surface: Option<int>)
    requires Sound(s) && s.locked && Shown(s.covers, surface)
    ensures Sound(LockSurfaceFocused(s, surface)) && Guarded(LockSurfaceFocused(s, surface))
  {
  }

  /** Requests of clients, layers and interactive modes. */
  predicate IsSeatEvent(e: Event) {
    e.FocusSurface? || e.ForceFocus? || e.FocusLayer? || e.LayerGone? || e.OverrideBegins? || e.OverrideEnds?
  }

  lemma SeatFocusedForm(s: State, surface: Option<int>, replaceExclusive: bool, isLock: bool)
    ensures var t := SeatFocused(s, surface, replaceExclusive, isLock); t == s.(focus := t.focus)
    ensures s.locked && !isLock ==> SeatFocused(s, surface, replaceExclusive, isLock) == s
  {
  }

  /** Seat events change nothing but the seat, and while locked not even the focus. */
  lemma SeatEventForm(s: State, e: Event)
    requires Possible(s, e) && IsSeatEvent(e)
    ensures var t := After(s, e);
            t == s.(focus := t.focus, exclusiveLayer := t.exclusiveLayer, passthrough := t.passthrough)
            && (s.locked ==> t.focus == s.focus)
  {
    if e.FocusSurface? {
      SeatFocusedForm(s, e.wanted, false, false);
    } else if e.FocusLayer? {
      SeatFocusedForm(s, Some(e.surface), true, false);
    } else if e.OverrideBegins? {
      SeatFocusedForm(s.(passthrough := false), None, false, false);
    } else if e.OverrideEnds? {
      SeatFocusedForm(s.(passthrough := true), e.restored, false, false);
    }
  }

  /** While locked, no request of a client or of the desktop moves the focus. */
  lemma LockedFocusIsDeaf(s: State, e: Event)
    requires s.locked && Possible(s, e) && IsSeatEvent(e)
    ensures After(s, e).focus == s.focus && After(s, e).focused == s.focused
  {
    SeatEventForm(s, e);
  }

  lemma SeatEventKeeps(s: State, e: Event)
    requires Sound(s) && Possible(s, e) && IsSeatEvent(e)
    ensures Sound(After(s, e))
    ensures s.locked && Guarded(s) ==> Guarded(After(s, e))
  {
    SeatEventForm(s, e);
  }

  lemma UnlockKeeps(s: State)
    requires Sound(s)
    ensures Sound(Uncovered(s).(locked := false))
  {
    assert AllFound([], multiset{});
  }

  lemma LockEventKeeps(s: State, e: Event)
    requires Sound(s) && Possible(s, e) && (e.Unlock? || e.Abandon? || e.StaleIdle? || e.SurfaceUnmapped? || e.ClientSurfaceGone?)
    ensures Sound(After(s, e))
    ensures s.locked && Guarded(s) && After(s, e).locked ==> Guarded(After(s, e))
  {
    if e.Unlock? {
      UnlockKeeps(s);
    }
  }

  lemma OutputEventKeeps(s: State, e: Event)
    requires Sound(s) && Possible(s, e) && !s.failed
    requires e.OutputNew? || e.OutputEnabled? || e.OutputDisabled? || e.OutputDestroyed?
    ensures Sound(After(s, e))
    ensures s.locked && Guarded(s) ==> Guarded(After(s, e))
  {
    match e
    case OutputEnabled(o) => EnabledKeeps(s, o);
    case OutputDestroyed(o) => OutputLostKeeps(s, o);
    case OutputDisabled(o) => LeaveLayout(s, o);
    case OutputNew(o) =>
  }

  lemma SurfaceEventKeeps(s: State, e: Event)
    requires Sound(s) && Possible(s, e) && !s.failed
    requires e.Surface? || e.SurfaceMapped? || e.MapIdle? || e.SurfaceDestroyed?
    ensures Sound(After(s, e))
    ensures s.locked && Guarded(s) ==> Guarded(After(s, e))
  {
    match e
    case Surface(o, surface) => NewSurfaceKeeps(s, o, surface);
    case SurfaceMapped(o) => MapQueuedKeeps(s, Find(s.covers, o));
    case MapIdle(o) => MapHandledKeeps(s, Find(s.covers, o));
    case SurfaceDestroyed(o) => SurfaceLostKeeps(s, Find(s.covers, o));
  }

  /**
   * Every event keeps the lock manager sound; while the session stays locked,
   * none takes the keyboard away from the lock.
   */
  lemma StepKeeps(s: State, e: Event)
    requires Sound(s) && Possible(s, e)
    ensures Sound(After(s, e))
    ensures s.locked && Guarded(s) && After(s, e).locked ==> Guarded(After(s, e))
  {
    if !s.failed {
      if IsSeatEvent(e) {
        SeatEventKeeps(s, e);
      } else if e.Lock? {
        NewLockKeeps(s);
      } else if e.OutputNew? || e.OutputEnabled? || e.OutputDisabled? || e.OutputDestroyed? {
        OutputEventKeeps(s, e);
      } else if e.Surface? || e.SurfaceMapped? || e.MapIdle? || e.SurfaceDestroyed? {
        SurfaceEventKeeps(s, e);
      } else {
        LockEventKeeps(s, e);
      }
    }
  }

  // ---- every run ----

  predicate PossibleRun(s: State, es: seq<Event>)
    decreases |es|
  {
    es == [] || (Possible(s, es[0]) && PossibleRun(After(s, es[0]), es[1..]))
  }

  function AfterRun(s: State, es: seq<Event>): State
    requires PossibleRun(s, es)
    decreases |es|
  {
    if es == [] then s else AfterRun(After(s, es[0]), es[1..])
  }

  /** The session is locked in every state of the run, its first and last included. */
  predicate AlwaysLocked(s: State, es: seq<Event>)
    requires PossibleRun(s, es)
    decreases |es|
  {
    s.locked && (es == [] || AlwaysLocked(After(s, es[0]), es[1..]))
  }

  predicate AlwaysGuarded(s: State, es: seq<Event>)
    requires PossibleRun(s, es)
    decreases |es|
  {
    Guarded(s) && (es == [] || AlwaysGuarded(After(s, es[0]), es[1..]))
  }

  predicate CoveredOnce(covers: seq<LockOutput>, output: int) {
    exists i :: 0 <= i < |covers| && covers[i].output == output && OnlyAt(covers, i)
  }

  predicate OnlyAt(covers: seq<LockOutput>, i: nat)
    requires i < |covers|
  {
    forall j :: 0 <= j < |covers| && covers[j].output == covers[i].output ==> j == i
  }

  /**
   * After any run: an unlocked session has no lock object, no covers and no
   * lock focus; a locked one covers every output of the layout exactly once,
   * and its focus is none or a surface of a live cover.
   */
  lemma {:induction false} RunsStaySound(s: State, es: seq<Event>)
    requires Sound(s) && PossibleRun(s, es)
    ensures var t := AfterRun(s, es);
            && (!t.locked ==> !t.attached && t.covers == [] && t.focused.None?)
            && (t.locked ==> forall o <- t.layout :: CoveredOnce(t.covers, o))
            && (t.focused.Some? ==> t.focus == t.focused && Shown(t.covers, t.focused))
    decreases |es|
  {
    if es == [] {
      forall o | o in s.layout && s.locked ensures CoveredOnce(s.covers, o) {
        var i := Find(s.covers, o);
        assert OnlyAt(s.covers, i);
      }
    } else {
      StepKeeps(s, es[0]);
      RunsStaySound(After(s, es[0]), es[1..]);
    }
  }

  lemma {:induction false} LockedRunsStayGuarded(s: State, es: seq<Event>)
    requires Sound(s) && Guarded(s) && PossibleRun(s, es) && AlwaysLocked(s, es)
    ensures AlwaysGuarded(s, es)
    decreases |es|
  {
    if es != [] {
      StepKeeps(s, es[0]);
      LockedRunsStayGuarded(After(s, es[0]), es[1..]);
    }
  }

  /**
   * From the moment an unlocked session is locked, for as long as it stays
   * locked, the keyboard is with nobody or with a live lock surface: exactly
   * if nothing had the focus, or no interactive mode and no exclusive layer
   * was in the way of taking it.
   */
  lemma LockTakesFocusIff(s: State, es: seq<Event>)
    requires Sound(s) && !s.locked && PossibleRun(NewLock(s), es) && AlwaysLocked(NewLock(s), es)
    ensures AlwaysGuarded(NewLock(s), es) <==> s.focus.None? || (s.passthrough && !s.exclusiveLayer)
  {
    NewLockKeeps(s);
    if Guarded(NewLock(s)) {
      LockedRunsStayGuarded(NewLock(s), es);
    }
  }

  /** Whatever had the focus before, the callback of a lock surface that is still there takes it. */
  lemma FirstMapTakesFocus(s: State, output: int)
    requires Sound(s) && !s.failed && output in s.queued && HasSurface(s, output)
    ensures var t := After(s, MapIdle(output)); Guarded(t) && t.focus.Some? && Shown(t.covers, t.focus)
  {
    assert Shown(s.covers, s.covers[Find(s.covers, output)].surface);
  }
}
