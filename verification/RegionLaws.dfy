/** What losing outputs and arranging windows does to each window (src/regions.c, src/view.c). */
module RegionLaws {

  import opened Options
  import opened Regions
  import opened RegionRuns

  /** The window is tiled to a region of output o. */
  predicate OnOutput(v: View, o: nat) {
    v.region.Some? && v.region.value.output == o
  }

  /** t is v with nothing but its tiling changed: it has left its region and remembers the name. */
  predicate RemembersRegion(v: View, t: View)
    requires v.region.Some?
  {
    t.region == None && t.evacuate == Some(v.region.value.name) && t == v.(region := t.region, evacuate := t.evacuate)
  }

  /** An output that goes, or is disabled, sends the windows on its regions away with the name of their region, and no others. */
  lemma GoneOutputIs(w: World, o: nat, e: Event, i: nat)
    requires WorldSound(w) && o < |w.s.outputs| && (e == Disable(o) || e == Lose(o)) && i < |w.s.views|
    ensures var v, t := w.s.views[i], After(w, e);
            && |t.s.views| == |w.s.views| && |t.s.outputs| == |w.s.outputs| && !t.s.outputs[o].usable
            && (if OnOutput(v, o) then RemembersRegion(v, t.s.views[i]) else t.s.views[i] == v)
            && (forall p :: 0 <= p < |w.s.outputs| && p != o ==> t.s.outputs[p] == w.s.outputs[p])
            && (e == Lose(o) ==> t.s.outputs[o].regions == [])
  {
    assert ViewSound(w.s.views[i], w.s.outputs);
  }

  /** An output that is enabled has one new region for each configured name, in that order, and its old ones are gone. */
  lemma EnabledOutputIs(w: World, o: nat, k: nat)
    requires WorldSound(w) && o < |w.s.outputs| && k < |w.config|
    ensures var t := After(w, Enable(o));
            && t.s.outputs[o].usable && |t.s.outputs[o].regions| == |w.config|
            && t.s.outputs[o].regions[k].name == w.config[k] && t.s.outputs[o].regions[k].output == o
            && t.s.outputs[o].regions[k] !in w.s.outputs[o].regions
            && forall p :: 0 <= p < |w.s.outputs| && p != o ==> t.s.outputs[p] == w.s.outputs[p]
  {
    assert ListSound(w.s.outputs[o].regions, o, w.s.made);
  }

  /** The output is there and can be used. */
  predicate CanUse(outputs: seq<Output>, o: Option<nat>) {
    match o
    case None => false
    case Some(k) => k < |outputs| && outputs[k].usable
  }

  /**
   Arranging a window after a change of the layout: it goes to the output it belongs on if it has a placement at
   all, and its geometry is taken anew, unless that output cannot be used by a window that does not float.
   */
  lemma ArrangedIs(outputs: seq<Output>, v: View)
    ensures !v.placed ==> Adjusted(v, outputs) == v
    ensures v.placed && v.IsFloating() ==> Adjusted(v, outputs) == v.(output := v.home, shape := Other)
    ensures v.placed && !v.IsFloating() && !CanUse(outputs, v.home) ==> Adjusted(v, outputs) == v.(output := v.home)
    ensures v.placed && CanUse(outputs, v.home) && (v.fullscreen || v.maximized || v.edge) ==>
              Adjusted(v, outputs) == v.(output := v.home, shape := Special)
    ensures v.placed && CanUse(outputs, v.home) && !v.fullscreen && !v.maximized && !v.edge && v.evacuate == None && v.region.Some? ==>
              Adjusted(v, outputs) == v.(output := v.home, shape := InRegion(v.region.value))
  {
  }

  /** Entering or leaving a maximized or fullscreen state: the geometry is that of the state, of the region below it, or the natural one. */
  lemma ReshapedIs(outputs: seq<Output>, v: View, fullscreen: bool, maximized: bool)
    ensures var t := Reshaped(v, fullscreen, maximized, outputs);
            && t.fullscreen == fullscreen && t.maximized == maximized && t.output == v.output
            && (!fullscreen && !maximized && !v.edge && v.region == None && v.evacuate == None ==> t.shape == Natural)
            && ((fullscreen || maximized || v.edge) ==> t.shape == (if CanUse(outputs, v.output) then Special else v.shape))
            && (!fullscreen && !maximized && !v.edge && v.region.Some? && v.evacuate == None && CanUse(outputs, v.output) ==>
                  t.region == v.region && t.shape == InRegion(v.region.value))
  {
  }

  /** All windows with a size are arranged, and no others. */
  lemma AllArranged(s: State, i: nat)
    requires i < |s.views|
    ensures var t := Arranged(s);
            && t.outputs == s.outputs && |t.views| == |s.views|
            && t.views[i] == if s.views[i].sized then Adjusted(s.views[i], s.outputs) else s.views[i]
  {
  }

  /** Tiling to a region or an edge ends every other tiling and maximization, but a fullscreen window is left alone. */
  lemma TiledIs(w: World, i: nat, e: Event)
    requires i < |w.s.views| && Possible(w, e) && (e == SnapToEdge(i) || (e.SnapToRegion? && e.i == i))
    ensures var v, t := w.s.views[i], After(w, e).s.views[i];
            if v.fullscreen then t == v
            else !t.maximized && t.evacuate == None && t.edge == e.SnapToEdge?
                 && t.region == (if e.SnapToRegion? then Some(e.region) else None)
                 && t.shape == (if e.SnapToRegion? then InRegion(e.region) else Special) && t.output == v.output
  {
  }

  /** Untiling leaves a window with no tiling, maximized or not as asked. */
  lemma UntiledIs(w: World, i: nat, maximized: bool)
    requires i < |w.s.views|
    ensures var v, t := w.s.views[i], After(w, Untile(i, maximized)).s.views[i];
            t == v.(edge := false, region := None, evacuate := None, maximized := maximized)
  {
  }

  /** A run is its first event and then the others. */
  lemma RunFirst(w: World, e: Event, es: seq<Event>)
    requires Possible(w, e)
    ensures PossibleRun(w, [e] + es) <==> PossibleRun(After(w, e), es)
    ensures PossibleRun(After(w, e), es) ==> AfterRun(w, [e] + es) == AfterRun(After(w, e), es)
    ensures AfterRun(w, []) == w
  {
    assert ([e] + es)[1..] == es;
  }
}
