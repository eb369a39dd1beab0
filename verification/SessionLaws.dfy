/** What each request does to the keyboard focus and to the covers of a session lock (src/seat.c, src/session-lock.c). */
module SessionLaws {

  import opened Options
  import opened SessionLock
  import opened SessionRuns

  // ---- the keyboard ----

  /** An ordinary request has the keyboard to give: no lock and no exclusive layer stands against it. */
  predicate Free(s: State) {
    !s.locked && !s.exclusiveLayer
  }

  /** A client's surface gets the focus exactly if the keyboard is free and no interactive mode holds it; nothing else changes. */
  lemma SurfaceFocusIff(s: State, wanted: Option<int>)
    ensures SurfaceFocused(s, wanted) == if Free(s) && s.passthrough then s.(focus := wanted) else s
  {
  }

  /** A forced focus minds the lock only. */
  lemma ForcedFocusIff(s: State, surface: int)
    ensures ForceFocused(s, surface).focus == if s.locked then s.focus else Some(surface)
    ensures ForceFocused(s, surface) == s.(focus := ForceFocused(s, surface).focus)
  {
  }

  /** A layer surface takes the focus from another layer, but not from a lock; that it is exclusive is noted in any case. */
  lemma LayerFocusIff(s: State, surface: int, exclusive: bool)
    ensures var t := LayerFocused(s, surface, exclusive);
            && t.focus == (if s.locked then s.focus else Some(surface)) && t.exclusiveLayer == exclusive
            && t == s.(focus := t.focus, exclusiveLayer := t.exclusiveLayer)
  {
  }

  /** A lock surface takes it from all of them. */
  lemma LockFocusAlways(s: State, surface: Option<int>)
    ensures LockSurfaceFocused(s, surface) == s.(focused := surface, focus := surface)
  {
  }

  /** An interactive mode takes a free keyboard away, and gives it back where it is told to. */
  lemma OverrideIs(s: State, restored: Option<int>)
    ensures var t := OverrideBegun(s);
            !t.passthrough && t.focus == (if Free(s) then None else s.focus) && t == s.(passthrough := false, focus := t.focus)
    ensures var t := OverrideEnded(s, restored);
            && t.passthrough && t.focus == (if Free(s) && restored != None then restored else s.focus)
            && t == s.(passthrough := true, focus := t.focus)
  {
  }

  // ---- losing the focused lock surface ----

  /** j is the first cover other than i with a mapped surface. */
  predicate FirstOther(s: State, i: nat, j: nat) {
    && j < |s.covers| && j != i && HasMapped(s.covers[j], s.mapped)
    && forall k :: 0 <= k < j && k != i ==> !HasMapped(s.covers[k], s.mapped)
  }

  lemma {:induction false} NextMappedIs(s: State, i: nat, k: nat, j: nat)
    requires k <= j < |s.covers| && j != i && HasMapped(s.covers[j], s.mapped)
    requires forall l :: k <= l < j && l != i ==> !HasMapped(s.covers[l], s.mapped)
    ensures NextMapped(s.covers, s.mapped, i, k) == s.covers[j].surface
    decreases j - k
  {
    if k < j {
      NextMappedIs(s, i, k + 1, j);
    }
  }

  /** When a surface goes, the lock and the keyboard pass on to the first other one that is mapped, if they were with it. */
  lemma SurfaceLostIs(s: State, i: nat, j: nat)
    requires i < |s.covers|
    ensures SurfaceLost(s, i).covers == s.covers[i := LockOutput(s.covers[i].output, None)]
    ensures s.focused != s.covers[i].surface ==> SurfaceLost(s, i).focused == s.focused && SurfaceLost(s, i).focus == s.focus
    ensures s.focused == s.covers[i].surface && FirstOther(s, i, j) ==>
              SurfaceLost(s, i).focused == SurfaceLost(s, i).focus == s.covers[j].surface
    ensures s.focused == s.covers[i].surface && (forall k :: 0 <= k < |s.covers| && k != i ==> !HasMapped(s.covers[k], s.mapped)) ==>
              SurfaceLost(s, i).focused == SurfaceLost(s, i).focus == None
  {
    if FirstOther(s, i, j) {
      NextMappedIs(s, i, 0, j);
    }
    NextMappedIsShown(s.covers, s.mapped, i, 0);
  }

  /** A cover that goes takes no other with it; callbacks for it, and for no other, are dropped from the queue. */
  lemma CoverLostIs(s: State, i: nat)
    requires i < |s.covers|
    ensures CoverLost(s, i).covers == s.covers[..i] + s.covers[i + 1..]
    ensures CoverLost(s, i).queued == s.queued[s.covers[i].output := 0]
    ensures SameElsewhere(s, CoverLost(s, i))
  {
    CoverLostElsewhere(s, i);
  }

  /** It gives up lock and keyboard as its surface would, if it has one. */
  lemma CoverLostPasses(s: State, i: nat)
    requires i < |s.covers|
    ensures s.covers[i].surface == None ==> CoverLost(s, i).focused == s.focused && CoverLost(s, i).focus == s.focus
    ensures s.covers[i].surface != None ==>
              CoverLost(s, i).focused == SurfaceLost(s, i).focused && CoverLost(s, i).focus == SurfaceLost(s, i).focus
  {
  }

  // ---- locking ----

  /** A second lock is refused; otherwise each live output gets one empty cover, and the session is locked by the new lock. */
  lemma NewLockIs(s: State)
    ensures s.attached ==> NewLock(s) == s
    ensures !s.attached ==>
              var t := NewLock(s);
              && t.locked && t.attached && CoversExactly(t.covers, s.outputs)
              && t.outputs == s.outputs && t.layout == s.layout && t.mapped == s.mapped
              && t.exclusiveLayer == s.exclusiveLayer && t.passthrough == s.passthrough
              && t.focused == (if s.locked then None else s.focused)
              && t.focus == (if s.locked then (if s.focused != None then None else s.focus)
                             else if !s.exclusiveLayer && s.passthrough then None else s.focus)
  {
    CoverAllCovers(s.outputs);
  }

  /** Unlocking removes all covers, and the focus if a lock surface had it. */
  lemma UnlockedIs(s: State)
    requires Possible(s, Unlock) && !s.failed
    ensures var t := After(s, Unlock);
            && !t.locked && !t.attached && t.covers == [] && t.focused == None
            && t.focus == (if s.focused == None then s.focus else None) && t.outputs == s.outputs
  {
  }

  /** A new lock surface is shown by the cover of its output and by no other. */
  lemma NewSurfaceIs(s: State, output: int, surface: int, k: nat)
    requires UniqueOutputs(s.covers) && k < |s.covers|
    ensures var t := NewSurface(s, output, surface);
            && |t.covers| == |s.covers| && t == s.(covers := t.covers)
            && t.covers[k] == if s.covers[k].output == output then LockOutput(output, Some(surface)) else s.covers[k]
  {
  }

  /** Mapping a surface queues one callback, which is done when it has run. */
  lemma MappedIsHandled(s: State, i: nat)
    requires i < |s.covers| && s.covers[i].surface != None
    ensures var q := MapQueued(s, i);
            && q.queued == s.queued + multiset{s.covers[i].output} && s.covers[i].surface.value in q.mapped
            && q.covers == s.covers && q.focused == s.focused && q.focus == s.focus && MapHandled(q, i).queued == s.queued
  {
    assert s.queued + multiset{s.covers[i].output} - multiset{s.covers[i].output} == s.queued;
  }

  /** The surface takes lock and keyboard when the callback runs, unless another one has them. */
  lemma HandledTakesFocus(s: State, i: nat)
    requires i < |s.covers| && s.covers[i].surface != None
    ensures s.focused == None ==> MapHandled(s, i).focused == MapHandled(s, i).focus == s.covers[i].surface
    ensures s.focused != None ==> MapHandled(s, i).focused == s.focused && MapHandled(s, i).focus == s.focus
    ensures MapHandled(s, i).failed == s.failed && MapHandled(s, i).covers == s.covers
  {
  }

  // ---- outputs ----

  /** An output that joins the layout of a locked session is covered; covers that exist stay. */
  lemma EnabledIs(s: State, output: int)
    ensures var t := Enabled(s, output);
            && t.layout == s.layout + {output} && t == s.(layout := t.layout, covers := t.covers)
            && (!s.locked ==> t.covers == s.covers)
            && (s.locked && (exists c <- s.covers :: c.output == output) ==> t.covers == s.covers)
            && (s.locked && (forall c <- s.covers :: c.output != output) ==> t.covers == [LockOutput(output, None)] + s.covers)
  {
    if c :| c in s.covers && c.output == output {
      var i :| 0 <= i < |s.covers| && s.covers[i] == c;
      FoundIff(s.covers, output);
    }
    if Find(s.covers, output) < |s.covers| {
      assert s.covers[Find(s.covers, output)] in s.covers;
    }
  }

  /** A lost output leaves the layout, and its cover goes, and no other. */
  lemma OutputLostIs(s: State, output: int)
    requires UniqueOutputs(s.covers)
    ensures var t := OutputLost(s, output);
            && t.layout == s.layout - {output} && t.locked == s.locked
            && forall c :: c in t.covers <==> c in s.covers && c.output != output
  {
    var i := Find(s.covers, output);
    if i < |s.covers| {
      forall c ensures c in s.covers[..i] + s.covers[i + 1..] <==> c in s.covers && c.output != output {
        WithoutMembers(s.covers, i, c);
      }
      CoverLostIs(s.(layout := s.layout - {output}), i);
    }
  }

  lemma WithoutMembers(covers: seq<LockOutput>, i: nat, c: LockOutput)
    requires i < |covers| && UniqueOutputs(covers)
    ensures c in covers[..i] + covers[i + 1..] <==> c in covers && c.output != covers[i].output
  {
    var rest := covers[..i] + covers[i + 1..];
    forall k | 0 <= k < |rest| ensures rest[k] == covers[if k < i then k else k + 1] && rest[k].output != covers[i].output {
    }
    forall k | 0 <= k < |covers| && k != i ensures covers[k] in rest {
      assert rest[if k < i then k else k - 1] == covers[k];
    }
  }

  /** The events of outputs that change one thing only. */
  lemma PlainOutputEventsAre(s: State, o: int)
    requires !s.failed
    ensures After(s, OutputDisabled(o)) == s.(layout := s.layout - {o})
    ensures o !in s.outputs ==> After(s, OutputNew(o)) == s.(outputs := [o] + s.outputs)
  {
  }

  /** And those of surfaces and locks. */
  lemma PlainEventsAre(s: State, surface: int)
    requires !s.failed
    ensures After(s, SurfaceUnmapped(surface)) == s.(mapped := s.mapped - {surface})
    ensures After(s, LayerGone) == s.(exclusiveLayer := false)
    ensures s.attached ==> After(s, Abandon) == s.(attached := false)
    ensures !Shown(s.covers, Some(surface)) ==>
              After(s, ClientSurfaceGone(surface)) == s.(focus := if s.focus == Some(surface) then None else s.focus)
  {
  }

  /** A run is its first event and then the others. */
  lemma RunFirst(s: State, e: Event, es: seq<Event>)
    requires Possible(s, e)
    ensures PossibleRun(s, [e] + es) <==> PossibleRun(After(s, e), es)
    ensures PossibleRun(After(s, e), es) ==> AfterRun(s, [e] + es) == AfterRun(After(s, e), es)
    ensures AfterRun(s, []) == s
  {
    assert ([e] + es)[1..] == es;
  }
}
