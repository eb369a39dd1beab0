/** Runs of layout changes, reloads and tiling: regions of windows stay live and alike on all outputs. */
module RegionRuns {

  import opened Options
  import opened Regions

  datatype Event =
    | Reload(config: seq<string>)
    | AddOutput
    | Enable(o: nat)
    | Disable(o: nat)
    | Lose(o: nat)
    | SnapToRegion(i: nat, region: Region)
    | SnapToEdge(i: nat)
    | Untile(i: nat, maximized: bool)
    | Arrange
    | Reshape(i: nat, fullscreen: bool, maximized: bool)
    | Change(i: nat, view: View)
    | Open(view: View)
    | Close(i: nat)

  /** The regions currently configured go with the state. */
  datatype World = World(s: State, config: seq<string>)

  /** Usable outputs all have one region of each configured name. */
  predicate Alike(outputs: seq<Output>, config: seq<string>) {
    forall o :: 0 <= o < |outputs| && outputs[o].usable ==> RegionsFor(outputs[o].regions, config, o)
  }

  predicate WorldSound(w: World) {
    Sound(w.s) && Alike(w.s.outputs, w.config)
  }

  predicate Possible(w: World, e: Event) {
    match e
    case Enable(o) => o < |w.s.outputs|
    case Disable(o) => o < |w.s.outputs|
    case Lose(o) => o < |w.s.outputs|
    case SnapToRegion(i, r) => i < |w.s.views| && IsLive(w.s.outputs, r)
    case SnapToEdge(i) => i < |w.s.views|
    case Untile(i, _) => i < |w.s.views|
    case Reshape(i, _, _) => i < |w.s.views|
    case Change(i, v) =>
      i < |w.s.views| && SameTiling(w.s.views[i], v)
      && v.fullscreen == w.s.views[i].fullscreen && v.maximized == w.s.views[i].maximized
    case Open(v) => SameTiling(v, v.Untiled())
    case Close(i) => i < |w.s.views|
    case _ => true
  }

  predicate SameTiling(v: View, w: View) {
    v.edge == w.edge && v.region == w.region && v.evacuate == w.evacuate
  }

  function SetUsable(s: State, o: nat, usable: bool): State
    requires o < |s.outputs|
  {
    s.(outputs := s.outputs[o := s.outputs[o].(usable := usable)])
  }

  function WithView(w: World, i: nat, v: View): World
    requires i < |w.s.views|
  {
    w.(s := w.s.(views := w.s.views[i := v]))
  }

  function After(w: World, e: Event): World
    requires Possible(w, e)
  {
    match e
    case Reload(config) => World(Arranged(AllRebuilt(w.s, |w.s.outputs|, config)), config)
    case AddOutput => w.(s := w.s.(outputs := w.s.outputs + [Output(false, [])]))
    case Enable(o) => w.(s := SetUsable(OutputRebuilt(w.s, o, w.config), o, true))
    case Disable(o) => w.(s := SetUsable(w.s.(views := AllEvacuated(w.s.views, o)), o, false))
    case Lose(o) => w.(s := SetUsable(OutputRebuilt(w.s, o, []), o, false))
    case SnapToRegion(i, r) =>
      if w.s.views[i].fullscreen then w
      else WithView(w, i, w.s.views[i].Untiled().(maximized := false, region := Some(r), shape := InRegion(r)))
    case SnapToEdge(i) =>
      if w.s.views[i].fullscreen then w
      else WithView(w, i, w.s.views[i].Untiled().(maximized := false, edge := true, shape := Special))
    case Untile(i, maximized) => WithView(w, i, w.s.views[i].Untiled().(maximized := maximized))
    case Arrange => w.(s := Arranged(w.s))
    case Reshape(i, fullscreen, maximized) =>
      WithView(w, i, Reshaped(w.s.views[i], fullscreen, maximized, w.s.outputs))
    case Change(i, v) => WithView(w, i, v)
    case Open(v) => w.(s := w.s.(views := [v] + w.s.views))
    case Close(i) => w.(s := w.s.(views := w.s.views[..i] + w.s.views[i + 1..]))
  }

  lemma SameRegionsSameViews(v: View, a: seq<Output>, b: seq<Output>)
    requires |a| <= |b| && (forall o :: 0 <= o < |a| ==> a[o].regions == b[o].regions)
    requires ViewSound(v, a)
    ensures ViewSound(v, b)
  {
  }

  lemma SetUsableKeeps(s: State, o: nat, usable: bool)
    requires Sound(s) && o < |s.outputs|
    ensures Sound(SetUsable(s, o, usable))
  {
    var t := SetUsable(s, o, usable);
    forall p | 0 <= p < |t.outputs| ensures ListSound(t.outputs[p].regions, p, t.made) {
      assert ListSound(s.outputs[p].regions, p, s.made);
    }
    forall i | 0 <= i < |t.views| ensures ViewSound(t.views[i], t.outputs) {
      SameRegionsSameViews(s.views[i], s.outputs, t.outputs);
    }
  }

  lemma EvacuatedKeeps(s: State, o: nat)
    requires Sound(s)
    ensures Sound(s.(views := AllEvacuated(s.views, o)))
  {
    forall i | 0 <= i < |s.views| ensures ViewSound(Evacuated(s.views[i], o), s.outputs) {
      assert ViewSound(s.views[i], s.outputs);
    }
  }

  lemma RebuiltLike(s: State, o: nat, config: seq<string>)
    requires o < |s.outputs|
    ensures RegionsFor(OutputRebuilt(s, o, config).outputs[o].regions, config, o)
  {
  }

  lemma ReloadKeeps(w: World, config: seq<string>)
    requires WorldSound(w)
    ensures WorldSound(After(w, Reload(config)))
  {
    RebuiltSoFar(w.s, |w.s.outputs|, config);
    AllRebuiltIsSound(w.s, |w.s.outputs|, config);
    ArrangedIsSound(AllRebuilt(w.s, |w.s.outputs|, config));
  }

  lemma AddOutputKeeps(w: World)
    requires WorldSound(w)
    ensures WorldSound(After(w, AddOutput))
  {
    var t := After(w, AddOutput).s;
    forall p | 0 <= p < |t.outputs| ensures ListSound(t.outputs[p].regions, p, t.made) {
      assert p < |w.s.outputs| ==> ListSound(w.s.outputs[p].regions, p, w.s.made);
    }
    forall i | 0 <= i < |t.views| ensures ViewSound(t.views[i], t.outputs) {
      SameRegionsSameViews(w.s.views[i], w.s.outputs, t.outputs);
    }
  }

  lemma OutputEventKeeps(w: World, e: Event)
    requires WorldSound(w) && Possible(w, e) && (e.Enable? || e.Disable? || e.Lose?)
    ensures WorldSound(After(w, e))
  {
    match e
    case Enable(o) =>
      RebuiltIsSound(w.s, o, w.config);
      SetUsableKeeps(OutputRebuilt(w.s, o, w.config), o, true);
      RebuiltLike(w.s, o, w.config);
    case Disable(o) =>
      EvacuatedKeeps(w.s, o);
      SetUsableKeeps(w.s.(views := AllEvacuated(w.s.views, o)), o, false);
    case Lose(o) =>
      RebuiltIsSound(w.s, o, []);
      SetUsableKeeps(OutputRebuilt(w.s, o, []), o, false);
  }

  lemma ViewEventKeeps(w: World, e: Event)
    requires WorldSound(w) && Possible(w, e)
    requires !e.Reload? && !e.Arrange? && !e.AddOutput? && !e.Enable? && !e.Disable? && !e.Lose?
    ensures WorldSound(After(w, e))
  {
    var t := After(w, e).s;
    assert t.outputs == w.s.outputs;
    forall v | v in t.views ensures ViewSound(v, t.outputs) {
      if v in w.s.views {
        var k :| 0 <= k < |w.s.views| && w.s.views[k] == v;
        assert ViewSound(w.s.views[k], w.s.outputs);
      } else if e.Change? {
        assert ViewSound(w.s.views[e.i], w.s.outputs);
      } else if e.Reshape? {
        assert ViewSound(w.s.views[e.i], w.s.outputs);
        ReshapedIsSound(w.s, w.s.views[e.i], e.fullscreen, e.maximized);
      }
    }
  }

  /**
   * A window that kept the name of a lost region behind a fullscreen or maximized
   * state gets the region of that name back when it leaves that state, or floats
   * in its natural geometry if the name is not configured any more.
   */
  lemma LeavingReattaches(w: World, i: nat)
    requires WorldSound(w) && i < |w.s.views| && w.s.views[i].evacuate.Some? && Usable(w.s.outputs, w.s.views[i].output)
    ensures var v, t := w.s.views[i], After(w, Reshape(i, false, false)).s.views[i];
            && t.evacuate.None?
            && (v.evacuate.value in w.config ==>
                  && t.region.Some? && t.region.value.name == v.evacuate.value
                  && t.region.value.output == v.output.value && IsLive(w.s.outputs, t.region.value)
                  && t.shape == InRegion(t.region.value))
            && (v.evacuate.value !in w.config ==> t.IsFloating() && t.shape == Natural)
  {
    var v := w.s.views[i];
    assert ViewSound(v, w.s.outputs);
    var o := v.output.value;
    assert RegionsFor(w.s.outputs[o].regions, w.config, o);
    NamedIff(w.s.outputs[o].regions, w.config, o, v.evacuate.value);
  }

  predicate PossibleRun(w: World, es: seq<Event>)
    decreases |es|
  {
    es == [] || (Possible(w, es[0]) && PossibleRun(After(w, es[0]), es[1..]))
  }

  function AfterRun(w: World, es: seq<Event>): World
    requires PossibleRun(w, es)
    decreases |es|
  {
    if es == [] then w else AfterRun(After(w, es[0]), es[1..])
  }

  /**
   * After any run, a window's region is none or a live one, at most one of edge,
   * region and lost region is set, and every usable output has a region of the
   * same name, so that the window can be moved there.
   */
  lemma {:induction false} RunsKeepRegionsLive(w: World, es: seq<Event>, i: nat)
    requires WorldSound(w) && PossibleRun(w, es) && i < |AfterRun(w, es).s.views|
    ensures var s := AfterRun(w, es).s; var v := s.views[i];
            && (v.region.Some? ==> IsLive(s.outputs, v.region.value))
            && !(v.region.Some? && v.evacuate.Some?) && !(v.edge && v.region.Some?) && !(v.edge && v.evacuate.Some?)
            && (v.region.Some? && s.outputs[v.region.value.output].usable ==>
                  forall o :: 0 <= o < |s.outputs| && s.outputs[o].usable ==>
                    Named(s.outputs[o].regions, v.region.value.name).Some?)
    decreases |es|
  {
    if es != [] {
      var e := es[0];
      if e.Reload? {
        ReloadKeeps(w, e.config);
      } else if e.Arrange? {
        ArrangedIsSound(w.s);
      } else if e.AddOutput? {
        AddOutputKeeps(w);
      } else if e.Enable? || e.Disable? || e.Lose? {
        OutputEventKeeps(w, e);
      } else {
        ViewEventKeeps(w, e);
      }
      RunsKeepRegionsLive(After(w, e), es[1..], i);
    } else {
      var v := w.s.views[i];
      assert ViewSound(v, w.s.outputs);
      if v.region.Some? && w.s.outputs[v.region.value.output].usable {
        LiveNameIsEverywhere(w, i);
      }
    }
  }

  lemma LiveNameIsEverywhere(w: World, i: nat)
    requires WorldSound(w) && i < |w.s.views| && w.s.views[i].region.Some?
    requires IsLive(w.s.outputs, w.s.views[i].region.value)
    requires w.s.outputs[w.s.views[i].region.value.output].usable
    ensures forall o :: 0 <= o < |w.s.outputs| && w.s.outputs[o].usable ==>
              Named(w.s.outputs[o].regions, w.s.views[i].region.value.name).Some?
  {
    var r := w.s.views[i].region.value;
    NamedIff(w.s.outputs[r.output].regions, w.config, r.output, r.name);
    forall o | 0 <= o < |w.s.outputs| && w.s.outputs[o].usable ensures Named(w.s.outputs[o].regions, r.name).Some? {
      NamedIff(w.s.outputs[o].regions, w.config, o, r.name);
    }
  }
}
