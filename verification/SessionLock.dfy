/** The session lock and the keyboard focus it guards (src/session-lock.c, src/seat.c). */
module SessionLock {

  import opened Options
  import Order

  /** What covers one output while the session is locked. */
  datatype LockOutput = LockOutput(output: int, surface: Option<int>)

  /**
   * The lock manager (`attached`: a lock object exists), the live outputs and
   * those in the layout, the mapped surfaces, and the seat's keyboard focus.
   * `queued` are the covers for which an idle callback is waiting, `stale` tells
   * that one is waiting for a cover that is gone, and `failed` that a callback
   * has followed a dangling or a null pointer.
   */
  datatype State = State(
    attached: bool, locked: bool, focused: Option<int>, covers: seq<LockOutput>,
    outputs: seq<int>, layout: set<int>, mapped: set<int>,
    focus: Option<int>, exclusiveLayer: bool, passthrough: bool,
    queued: multiset<int>, stale: bool, failed: bool)

  // ---- seat ----

  function SeatFocused(s: State, surface: Option<int>, replaceExclusive: bool, isLock: bool): State {
    if s.exclusiveLayer && !replaceExclusive then s
    else if s.locked && !isLock then s
    else s.(focus := surface)
  }

  function SurfaceFocused(s: State, surface: Option<int>): State {
    if s.passthrough then SeatFocused(s, surface, false, false) else s
  }

  /** seat_force_focus_surface */
  function ForceFocused(s: State, surface: int): State {
    if s.locked then s else s.(focus := Some(surface))
  }

  /** seat_set_focus_layer; the layer is remembered even where the focus was refused. */
  function LayerFocused(s: State, surface: int, exclusive: bool): State {
    SeatFocused(s, Some(surface), true, false).(exclusiveLayer := exclusive)
  }

  /** seat_focus_override_begin and _end; `restored` is the surface to focus again, if any. */
  function OverrideBegun(s: State): State {
    SeatFocused(s.(passthrough := false), None, false, false)
  }

  function OverrideEnded(s: State, restored: Option<int>): State {
    var t := s.(passthrough := true);
    if restored.Some? then SeatFocused(t, restored, false, false) else t
  }

  // ---- covers ----

  function LockSurfaceFocused(s: State, surface: Option<int>): State {
    SeatFocused(s.(focused := surface), surface, true, true)
  }

  predicate HasMapped(c: LockOutput, mapped: set<int>) {
    c.surface.Some? && c.surface.value in mapped
  }

  /** The first mapped surface among the covers from k on, other than cover i's. */
  function NextMapped(covers: seq<LockOutput>, mapped: set<int>, i: nat, k: nat): Option<int>
    requires k <= |covers|
    decreases |covers| - k
  {
    if k == |covers| then None
    else if k != i && HasMapped(covers[k], mapped) then covers[k].surface
    else NextMapped(covers, mapped, i, k + 1)
  }

  function Refocused(s: State, i: nat): State
    requires i < |s.covers|
  {
    if s.focused != s.covers[i].surface then s
    else LockSurfaceFocused(s, NextMapped(s.covers, s.mapped, i, 0))
  }

  function CoverLost(s: State, i: nat): State
    requires i < |s.covers|
  {
    var t, o := if s.covers[i].surface.Some? then Refocused(s, i) else s, s.covers[i].output;
    t.(covers := s.covers[..i] + s.covers[i + 1..],
       queued := s.queued[o := 0], stale := s.stale || o in s.queued)
  }

  function SurfaceLost(s: State, i: nat): State
    requires i < |s.covers|
  {
    Refocused(s, i).(covers := s.covers[i := s.covers[i].(surface := None)])
  }

  function Find(covers: seq<LockOutput>, output: int): (i: nat)
    ensures i <= |covers|
    ensures i < |covers| ==> covers[i].output == output
    ensures forall j :: 0 <= j < i ==> covers[j].output != output
  {
    if covers == [] then 0
    else if covers[0].output == output then 0
    else Find(covers[1..], output) + 1
  }

  function Cover(covers: seq<LockOutput>, output: int): seq<LockOutput> {
    if Find(covers, output) < |covers| then covers else [LockOutput(output, None)] + covers
  }

  function CoverAll(covers: seq<LockOutput>, outputs: seq<int>): seq<LockOutput> {
    if outputs == [] then covers
    else Cover(CoverAll(covers, outputs[..|outputs| - 1]), outputs[|outputs| - 1])
  }

  /** All covers removed, and with them the focus that one of them had. */
  function Uncovered(s: State): State {
    s.(covers := [], attached := false, focused := None,
       focus := if s.focused.Some? then None else s.focus,
       queued := multiset{}, stale := s.stale || s.queued != multiset{})
  }

  // ---- requests and events ----

  function NewLock(s: State): State {
    if s.attached then s
    else
      var t := SurfaceFocused(if s.locked then Uncovered(s) else s, None);
      t.(covers := CoverAll([], t.outputs), locked := true, attached := true)
  }

  function NewSurface(s: State, output: int, surface: int): State {
    var i := Find(s.covers, output);
    if i < |s.covers| then s.(covers := s.covers[i := s.covers[i].(surface := Some(surface))]) else s
  }

  /** A lock surface is mapped: the callback is queued. */
  function MapQueued(s: State, i: nat): State
    requires i < |s.covers| && s.covers[i].surface.Some?
  {
    s.(mapped := s.mapped + {s.covers[i].surface.value}, queued := s.queued + multiset{s.covers[i].output})
  }

  /** The callback runs; it follows the cover's surface without looking whether there is one. */
  function MapHandled(s: State, i: nat): State
    requires i < |s.covers|
  {
    var t := s.(queued := s.queued - multiset{s.covers[i].output});
    if s.focused.Some? then t
    else if s.covers[i].surface.None? then t.(failed := true)
    else LockSurfaceFocused(t, s.covers[i].surface)
  }

  function Enabled(s: State, output: int): State {
    s.(layout := s.layout + {output}, covers := if s.locked then Cover(s.covers, output) else s.covers)
  }

  function Remove(outputs: seq<int>, output: int): seq<int> {
    if outputs == [] then []
    else if outputs[0] == output then outputs[1..]
    else [outputs[0]] + Remove(outputs[1..], output)
  }

  /** The cover of an output, if it has one, goes. */
  function CoverGone(s: State, output: int): State {
    var i := Find(s.covers, output);
    if i < |s.covers| then CoverLost(s, i) else s
  }

  function OutputLost(s: State, output: int): State {
    var t := CoverGone(s.(layout := s.layout - {output}), output);
    t.(outputs := Remove(t.outputs, output))
  }

  // ---- what holds between events ----

  predicate UniqueOutputs(covers: seq<LockOutput>) {
    forall i, j :: 0 <= i < j < |covers| ==> covers[i].output != covers[j].output
  }

  predicate UniqueSurfaces(covers: seq<LockOutput>) {
    forall i, j :: 0 <= i < j < |covers| && covers[i].surface.Some? ==> covers[i].surface != covers[j].surface
  }

  /** `surface` belongs to a live cover. */
  predicate Shown(covers: seq<LockOutput>, surface: Option<int>) {
    exists i :: 0 <= i < |covers| && covers[i].surface == surface
  }

  predicate AreCovered(covers: seq<LockOutput>, outputs: set<int>) {
    forall o <- outputs :: Find(covers, o) < |covers|
  }

  predicate AllFound(covers: seq<LockOutput>, queued: multiset<int>) {
    forall o <- queued :: Find(covers, o) < |covers|
  }

  predicate CoversLive(covers: seq<LockOutput>, outputs: seq<int>) {
    forall i :: 0 <= i < |covers| ==> covers[i].output in outputs
  }

  predicate ManagerSound(s: State) {
    && UniqueOutputs(s.covers)
    && UniqueSurfaces(s.covers)
    && (s.focused.Some? ==> Shown(s.covers, s.focused))
    && (s.locked ==> AreCovered(s.covers, s.layout))
    && (!s.locked ==> !s.attached && s.covers == [])
  }

  predicate OutputsSound(s: State) {
    && Order.Distinct(s.outputs)
    && (forall o <- s.layout :: o in s.outputs)
    && CoversLive(s.covers, s.outputs)
  }

  /** A focused lock surface holds the keyboard. */
  predicate FocusSound(s: State) {
    s.focused.Some? ==> s.locked && s.focus == s.focused
  }

  predicate Sound(s: State) {
    ManagerSound(s) && OutputsSound(s) && FocusSound(s) && AllFound(s.covers, s.queued)
  }

  /** The seat's focus is what the lock manager says: nothing, or a live lock surface. */
  predicate Guarded(s: State) {
    s.focus == s.focused
  }

  // ---- losing covers one by one ----

  lemma {:induction false} NextMappedIsShown(covers: seq<LockOutput>, mapped: set<int>, i: nat, k: nat)
    requires k <= |covers| && i < |covers|
    ensures var n := NextMapped(covers, mapped, i, k);
            n.Some? ==> n.value in mapped && exists j :: k <= j < |covers| && j != i && covers[j].surface == n
    ensures NextMapped(covers, mapped, i, k).None? ==>
              forall j :: k <= j < |covers| && j != i ==> !HasMapped(covers[j], mapped)
    decreases |covers| - k
  {
    if k < |covers| && !(k != i && HasMapped(covers[k], mapped)) {
      NextMappedIsShown(covers, mapped, i, k + 1);
    }
  }

  lemma ShownWithout(covers: seq<LockOutput>, i: nat, j: nat)
    requires i < |covers| && j < |covers| && i != j
    ensures Shown(covers[..i] + covers[i + 1..], covers[j].surface)
  {
    var rest := covers[..i] + covers[i + 1..];
    assert covers[j] == if j < i then rest[j] else rest[j - 1];
  }

  /** Losing cover i leaves the focus on a live lock surface, or on none. */
  lemma CoverLostShown(s: State, i: nat)
    requires i < |s.covers| && (s.focused.Some? ==> Shown(s.covers, s.focused))
    ensures var t := CoverLost(s, i); t.focused.Some? ==> s.focused.Some? && Shown(t.covers, t.focused)
    ensures var t := CoverLost(s, i); t.focused.Some? && t.focused != s.focused ==> t.focused.value in s.mapped
  {
    NextMappedIsShown(s.covers, s.mapped, i, 0);
    var t := CoverLost(s, i);
    if t.focused.Some? {
      var j :| 0 <= j < |s.covers| && j != i && s.covers[j].surface == t.focused;
      ShownWithout(s.covers, i, j);
    }
  }

  /** t differs from s in covers, focus and queue at most. */
  predicate SameElsewhere(s: State, t: State) {
    t == s.(covers := t.covers, focused := t.focused, focus := t.focus, queued := t.queued, stale := t.stale)
  }

  /** The lock focus is on a live cover, or it has gone and the keyboard's with it. */
  predicate FocusCleared(s: State, t: State) {
    && (t.focused.Some? ==> s.focused.Some? && Shown(t.covers, t.focused))
    && (t.focused.None? ==> t.focus == if s.focused.Some? then None else s.focus)
  }

  /** The callbacks of live covers are queued, the others stale; none is lost. */
  predicate QueueCleared(s: State, t: State) {
    && AllFound(t.covers, t.queued)
    && ((t.stale || t.queued != multiset{}) == (s.stale || s.queued != multiset{}))
  }

  /** Some covers of s are gone. */
  predicate Clearing(s: State, t: State) {
    SameElsewhere(s, t) && FocusCleared(s, t) && QueueCleared(s, t)
  }

  lemma ClearFocus(s: State, t: State)
    requires FocusCleared(s, t) && t.covers != []
    ensures FocusCleared(s, CoverLost(t, 0))
  {
    CoverLostShown(t, 0);
    RefocusForm(t, 0);
  }

  lemma ClearQueue(s: State, t: State)
    requires QueueCleared(s, t) && t.covers != []
    ensures QueueCleared(s, CoverLost(t, 0))
  {
    CoverLostQueue(t.covers, t.queued);
    assert CoverLost(t, 0).covers == t.covers[1..];
  }

  lemma CoverLostElsewhere(s: State, i: nat)
    requires i < |s.covers|
    ensures SameElsewhere(s, CoverLost(s, i))
  {
  }

  lemma ClearOne(s: State, t: State)
    requires Clearing(s, t) && t.covers != []
    ensures Clearing(s, CoverLost(t, 0))
  {
    CoverLostElsewhere(t, 0);
    ClearFocus(s, t);
    ClearQueue(s, t);
  }

  lemma RefocusForm(s: State, i: nat)
    requires i < |s.covers|
    ensures var t := Refocused(s, i);
            t == s.(focused := t.focused, focus := t.focus) && (t == s || t.focus == t.focused)
  {
  }

  lemma ClearedAll(s: State, t: State)
    requires Clearing(s, t) && t.covers == []
    ensures t.(attached := false) == Uncovered(s)
  {
    NothingQueued(t.queued);
  }

  /** The first cover goes, and the callbacks queued for it become stale. */
  lemma CoverLostQueue(covers: seq<LockOutput>, queued: multiset<int>)
    requires covers != [] && AllFound(covers, queued)
    ensures AllFound(covers[1..], queued[covers[0].output := 0])
    ensures queued != multiset{} <==> covers[0].output in queued || queued[covers[0].output := 0] != multiset{}
  {
    var o, rest := covers[0].output, queued[covers[0].output := 0];
    forall p | p in rest ensures Find(covers[1..], p) < |covers[1..]| {
      assert p != o && p in queued;
    }
    if queued != multiset{} && o !in queued {
      assert rest == queued;
    }
  }

  lemma NothingQueued(queued: multiset<int>)
    requires AllFound([], queued)
    ensures queued == multiset{}
  {
    forall o ensures o !in queued {
      assert Find([], o) == 0;
    }
  }

  /** Before anything has happened. */
  const START := State(false, false, None, [], [], {}, {}, None, false, true, multiset{}, false, false)

  // ---- the source's operations ----

  class Session {
    var attached: bool
    var locked: bool
    var focused: Option<int>
    var covers: seq<LockOutput>
    var outputs: seq<int>
    var layout: set<int>
    var mapped: set<int>
    var focus: Option<int>
    var exclusiveLayer: bool
    var passthrough: bool
    var queued: multiset<int>
    var stale: bool
    var failed: bool

    constructor ()
      ensures Sound(Now()) && Guarded(Now()) && Now() == START
    {
      attached, locked, focused, covers := false, false, None, [];
      outputs, layout, mapped := [], {}, {};
      focus, exclusiveLayer, passthrough := None, false, true;
      queued, stale, failed := multiset{}, false, false;
    }

    ghost function Now(): State
      reads this
    {
      State(attached, locked, focused, covers, outputs, layout, mapped, focus, exclusiveLayer, passthrough,
            queued, stale, failed)
    }

    method SeatFocus(surface: Option<int>, replaceExclusive: bool, isLock: bool)
      modifies this`focus
      ensures Now() == SeatFocused(old(Now()), surface, replaceExclusive, isLock)
    {
      if exclusiveLayer && !replaceExclusive {
        return;
      }
      if locked && !isLock {
        return;
      }
      focus := surface;
    }

    method SeatFocusSurface(surface: Option<int>)
      modifies this`focus
      ensures Now() == SurfaceFocused(old(Now()), surface)
    {
      if passthrough {
        SeatFocus(surface, false, false);
      }
    }

    method ForceFocusSurface(surface: int)
      modifies this`focus
      ensures Now() == ForceFocused(old(Now()), surface)
    {
      if locked {
        return;
      }
      focus := Some(surface);
    }

    method SetFocusLayer(surface: int, exclusive: bool)
      modifies this`focus, this`exclusiveLayer
      ensures Now() == LayerFocused(old(Now()), surface, exclusive)
    {
      SeatFocus(Some(surface), true, false);
      exclusiveLayer := exclusive;
    }

    method BeginOverride()
      modifies this`focus, this`passthrough
      ensures Now() == OverrideBegun(old(Now()))
    {
      passthrough := false;
      SeatFocus(None, false, false);
    }

    method EndOverride(restored: Option<int>)
      modifies this`focus, this`passthrough
      ensures Now() == OverrideEnded(old(Now()), restored)
    {
      passthrough := true;
      if restored.Some? {
        SeatFocus(restored, false, false);
      }
    }

    method FocusLockSurface(surface: Option<int>)
      modifies this`focused, this`focus
      ensures Now() == LockSurfaceFocused(old(Now()), surface)
    {
      focused := surface;
      SeatFocus(surface, true, true);
    }

    /** refocus_output */
    method Refocus(i: nat)
      requires i < |covers|
      modifies this`focused, this`focus
      ensures Now() == Refocused(old(Now()), i)
    {
      if focused != covers[i].surface {
        return;
      }
      var k := 0;
      while k < |covers|
        invariant 0 <= k <= |covers|
        invariant Now() == old(Now())
        invariant NextMapped(covers, mapped, i, 0) == NextMapped(covers, mapped, i, k)
      {
        if k != i && covers[k].surface.Some? && covers[k].surface.value in mapped {
          FocusLockSurface(covers[k].surface);
          return;
        }
        k := k + 1;
      }
      FocusLockSurface(None);
    }

    /** session_lock_output_destroy */
    method DestroyCover(i: nat)
      requires i < |covers|
      modifies this`focused, this`focus, this`covers, this`queued, this`stale
      ensures Now() == CoverLost(old(Now()), i)
    {
      if covers[i].surface.Some? {
        Refocus(i);
      }
      stale := stale || covers[i].output in queued;
      queued := queued[covers[i].output := 0];
      covers := covers[..i] + covers[i + 1..];
    }

    /** handle_surface_destroy */
    method HandleSurfaceDestroy(i: nat)
      requires i < |covers| && covers[i].surface.Some?
      modifies this`focused, this`focus, this`covers
      ensures Now() == SurfaceLost(old(Now()), i)
    {
      Refocus(i);
      covers := covers[i := covers[i].(surface := None)];
    }

    /** lock_output_for_output */
    method FindCover(output: int) returns (i: nat)
      ensures i == Find(covers, output)
    {
      i := 0;
      while i < |covers|
        invariant i <= |covers|
        invariant Find(covers, output) == i + Find(covers[i..], output)
      {
        if covers[i].output == output {
          return;
        }
        assert covers[i..][1..] == covers[i + 1..];
        i := i + 1;
      }
    }

    /** session_lock_output_create */
    method CreateCover(output: int)
      modifies this`covers
      ensures covers == Cover(old(covers), output)
    {
      var i := FindCover(output);
      if i == |covers| {
        covers := [LockOutput(output, None)] + covers;
      }
    }

    /** session_lock_destroy */
    method DestroyLock()
      requires focused.Some? ==> Shown(covers, focused)
      requires AllFound(covers, queued)
      modifies this`focused, this`focus, this`covers, this`attached, this`queued, this`stale
      ensures Now() == Uncovered(old(Now()))
    {
      ghost var s := Now();
      while covers != []
        invariant Clearing(s, Now())
        decreases |covers|
      {
        ClearOne(s, Now());
        DestroyCover(0);
      }
      ClearedAll(s, Now());
      attached := false;
    }

    /** handle_lock_unlock, up to the choice of the view to focus next */
    method HandleUnlock()
      requires Sound(Now())
      modifies this
      ensures Now() == Uncovered(old(Now())).(locked := false)
    {
      DestroyLock();
      locked := false;
    }

    /** handle_lock_destroy: the covers stay */
    method HandleAbandon()
      modifies this`attached
      ensures Now() == old(Now()).(attached := false)
    {
      attached := false;
    }

    /** handle_new_session_lock */
    method HandleNewLock()
      requires Sound(Now())
      modifies this
      ensures Now() == NewLock(old(Now()))
    {
      if attached {
        return;
      }
      if locked {
        DestroyLock();
      }
      assert covers == [];
      SeatFocusSurface(None);
      CoverOutputs();
      locked := true;
      attached := true;
    }

    method CoverOutputs()
      modifies this`covers
      ensures covers == CoverAll(old(covers), outputs)
    {
      var k := 0;
      while k < |outputs|
        invariant 0 <= k <= |outputs|
        invariant covers == CoverAll(old(covers), outputs[..k])
      {
        assert outputs[..k + 1][..k] == outputs[..k];
        CreateCover(outputs[k]);
        k := k + 1;
      }
      assert outputs[..k] == outputs;
    }

    /** handle_new_surface */
    method HandleNewSurface(output: int, surface: int)
      modifies this`covers
      ensures Now() == NewSurface(old(Now()), output, surface)
    {
      var i := FindCover(output);
      if i == |covers| {
        return;
      }
      covers := covers[i := covers[i].(surface := Some(surface))];
    }

    /** handle_surface_map */
    method HandleMap(i: nat)
      requires i < |covers| && covers[i].surface.Some?
      modifies this`mapped, this`queued
      ensures Now() == MapQueued(old(Now()), i)
    {
      mapped := mapped + {covers[i].surface.value};
      queued := queued + multiset{covers[i].output};
    }

    /** update_focus */
    method HandleIdle(i: nat)
      requires i < |covers| && covers[i].output in queued
      modifies this`focused, this`focus, this`queued, this`failed
      ensures Now() == MapHandled(old(Now()), i)
    {
      queued := queued - multiset{covers[i].output};
      if focused.None? {
        if covers[i].surface.None? {
          failed := true;
          return;
        }
        FocusLockSurface(covers[i].surface);
      }
    }

    /** add_output_to_layout, as far as the lock goes */
    method EnableOutput(output: int)
      modifies this`layout, this`covers
      ensures Now() == Enabled(old(Now()), output)
    {
      layout := layout + {output};
      if locked {
        CreateCover(output);
      }
    }

    /** The end of an output: its cover is destroyed with its scene tree. */
    method DestroyOutput(output: int)
      modifies this`outputs, this`layout, this`focused, this`focus, this`covers, this`queued, this`stale
      ensures Now() == OutputLost(old(Now()), output)
    {
      LeaveLayout(output);
      LoseCover(output);
      outputs := Remove(outputs, output);
    }

    method LeaveLayout(output: int)
      modifies this`layout
      ensures Now() == old(Now()).(layout := old(layout) - {output})
    {
      layout := layout - {output};
    }

    method LoseCover(output: int)
      modifies this`focused, this`focus, this`covers, this`queued, this`stale
      ensures Now() == CoverGone(old(Now()), output)
    {
      var i := FindCover(output);
      if i < |covers| {
        DestroyCover(i);
      }
    }
  }
}
