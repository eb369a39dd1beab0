/** Snap regions, rebuilt when the configuration or the outputs change (src/regions.c, src/view.c). */
module Regions {

  import opened Options

  /** A region object: its number, the name it was configured under, the output that owns it. */
  datatype Region = Region(id: nat, name: string, output: nat)

  datatype Output = Output(usable: bool, regions: seq<Region>)

  /** What a window's pending geometry was last taken from. */
  datatype Shape = Natural | InRegion(region: Region) | Special | Other

  /**
   * A window: how it is arranged, the name of a lost region (`evacuate`), whether
   * it has a size and a saved placement, and the output it belongs on after a
   * change of the layout.
   */
  datatype View = View(fullscreen: bool, maximized: bool, edge: bool, region: Option<Region>,
                       evacuate: Option<string>, sized: bool, placed: bool, output: Option<nat>,
                       home: Option<nat>, shape: Shape)
  {
    predicate IsFloating() {
      !fullscreen && !maximized && !edge && region.None? && evacuate.None?
    }

    /** Neither fullscreen nor maximized nor tiled to an edge hides the region. */
    predicate ShowsRegion() {
      !fullscreen && !maximized && !edge
    }

    function Untiled(): View {
      this.(edge := false, region := None, evacuate := None)
    }
  }

  predicate Usable(outputs: seq<Output>, o: Option<nat>) {
    o.Some? && o.value < |outputs| && outputs[o.value].usable
  }

  /** The region at k is the first one with that name. */
  predicate FirstNamed(regions: seq<Region>, name: string, k: nat) {
    k < |regions| && regions[k].name == name && forall i :: 0 <= i < k ==> regions[i].name != name
  }

  /** regions_from_name */
  function Named(regions: seq<Region>, name: string): (r: Option<Region>)
    ensures r.Some? ==> r.value in regions && r.value.name == name
    ensures r.Some? ==> exists k: nat :: FirstNamed(regions, name, k) && regions[k] == r.value
    ensures r.None? ==> forall x <- regions :: x.name != name
  {
    if regions == [] then None
    else if regions[0].name == name then
      assert FirstNamed(regions, name, 0);
      Some(regions[0])
    else
      assert forall k: nat :: FirstNamed(regions[1..], name, k) ==> FirstNamed(regions, name, k + 1);
      Named(regions[1..], name)
  }

  /** view_evacuate_region, for the views whose region is on output o */
  function Evacuated(v: View, o: nat): View {
    if v.region.Some? && v.region.value.output == o then
      v.(region := None, evacuate := if v.evacuate.None? then Some(v.region.value.name) else v.evacuate)
    else v
  }

  function AllEvacuated(views: seq<View>, o: nat): seq<View> {
    seq(|views|, i requires 0 <= i < |views| => Evacuated(views[i], o))
  }

  /** view_apply_region_geometry */
  function RegionApplied(v: View, outputs: seq<Output>): View
    requires Usable(outputs, v.output) && (v.region.Some? || v.evacuate.Some?)
  {
    if v.evacuate.Some? then
      var r := Named(outputs[v.output.value].regions, v.evacuate.value);
      if r.None? then v.Untiled().(shape := Natural)
      else v.(region := r, evacuate := None, shape := InRegion(r.value))
    else v.(shape := InRegion(v.region.value))
  }

  /** view_apply_special_geometry */
  function SpecialApplied(v: View, outputs: seq<Output>): View
    requires !v.IsFloating()
  {
    if !Usable(outputs, v.output) then v
    else if !v.ShowsRegion() then v.(shape := Special)
    else RegionApplied(v, outputs)
  }

  /** view_adjust_for_layout_change */
  function Adjusted(v: View, outputs: seq<Output>): View {
    if !v.placed then v
    else
      var w := v.(output := v.home);
      if w.IsFloating() then w.(shape := Other) else SpecialApplied(w, outputs)
  }

  /** The end of view_maximize and of view_set_fullscreen: the geometry for a changed state. */
  function Reshaped(v: View, fullscreen: bool, maximized: bool, outputs: seq<Output>): View {
    var w := v.(fullscreen := fullscreen, maximized := maximized);
    if w.IsFloating() then w.(shape := Natural) else SpecialApplied(w, outputs)
  }

  /** New region objects for the configured names. */
  function Built(config: seq<string>, o: nat, made: nat): seq<Region> {
    seq(|config|, k requires 0 <= k < |config| => Region(made + k, config[k], o))
  }

  datatype State = State(outputs: seq<Output>, views: seq<View>, made: nat)

  // ---- what holds between operations ----

  predicate ListsSound(s: State) {
    forall o :: 0 <= o < |s.outputs| ==> ListSound(s.outputs[o].regions, o, s.made)
  }

  predicate ListSound(regions: seq<Region>, o: nat, made: nat) {
    forall r <- regions :: r.output == o && r.id < made
  }

  predicate IsLive(outputs: seq<Output>, r: Region) {
    r.output < |outputs| && r in outputs[r.output].regions
  }

  /** At most one of edge, region and lost region is set, and a region is a live one. */
  predicate ViewSound(v: View, outputs: seq<Output>) {
    && (v.region.Some? ==> IsLive(outputs, v.region.value) && v.evacuate.None? && !v.edge)
    && (v.evacuate.Some? ==> !v.edge)
  }

  predicate Sound(s: State) {
    ListsSound(s) && forall i :: 0 <= i < |s.views| ==> ViewSound(s.views[i], s.outputs)
  }

  // ---- the source's operations ----

  class Desktop {
    var outputs: seq<Output>
    var views: seq<View>
    var made: nat

    function Now(): State
      reads this
    {
      State(outputs, views, made)
    }

    /** regions_evacuate_output */
    method Evacuate(o: nat)
      modifies this`views
      ensures views == AllEvacuated(old(views), o)
    {
      var i := 0;
      while i < |views|
        invariant 0 <= i <= |views| == |old(views)|
        invariant forall k :: 0 <= k < i ==> views[k] == Evacuated(old(views)[k], o)
        invariant forall k :: i <= k < |views| ==> views[k] == old(views)[k]
      {
        var v := views[i];
        if v.region.Some? && v.region.value.output == o {
          if v.evacuate.None? {
            v := v.(evacuate := Some(v.region.value.name));
          }
          views := views[i := v.(region := None)];
        }
        i := i + 1;
      }
    }

    /** regions_reconfigure_output */
    method ReconfigureOutput(o: nat, config: seq<string>)
      requires o < |outputs| && Sound(Now())
      modifies this
      ensures Now() == OutputRebuilt(old(Now()), o, config)
    {
      if outputs[o].regions != [] {
        Evacuate(o);
        outputs := outputs[o := outputs[o].(regions := [])];
      } else {
        NothingToEvacuate(Now(), o);
      }
      ghost var first := made;
      ghost var empty := outputs;
      assert empty[o].(regions := Built(config[..0], o, first)) == empty[o];
      for k := 0 to |config|
        invariant made == first + k && views == AllEvacuated(old(views), o)
        invariant outputs == empty[o := empty[o].(regions := Built(config[..k], o, first))]
      {
        var r := Region(made, config[k], o);
        outputs := outputs[o := outputs[o].(regions := outputs[o].regions + [r])];
        made := made + 1;
        assert Built(config[..k + 1], o, first) == Built(config[..k], o, first) + [r];
      }
      assert config[..|config|] == config;
    }

    /** regions_destroy after regions_evacuate_output, when an output ends or is disabled */
    method LoseOutput(o: nat)
      requires o < |outputs| && Sound(Now())
      modifies this`views, this`outputs
      ensures Now() == OutputRebuilt(old(Now()), o, [])
    {
      Evacuate(o);
      outputs := outputs[o := outputs[o].(regions := [])];
      assert Built([], o, made) == [];
    }

    /** desktop_arrange_all_views */
    method ArrangeAll()
      modifies this`views
      ensures Now() == Arranged(old(Now()))
    {
      var i := 0;
      while i < |views|
        invariant 0 <= i <= |views| == |old(views)|
        invariant forall k :: 0 <= k < i ==>
                    views[k] == if old(views)[k].sized then Adjusted(old(views)[k], outputs) else old(views)[k]
        invariant forall k :: i <= k < |views| ==> views[k] == old(views)[k]
      {
        if views[i].sized {
          var v := Adjust(views[i]);
          views := views[i := v];
        }
        i := i + 1;
      }
    }

    method Adjust(view: View) returns (v: View)
      ensures v == Adjusted(view, outputs)
    {
      if !view.placed {
        return view;
      }
      v := view.(output := view.home);
      if v.IsFloating() {
        return v.(shape := Other);
      }
      v := ApplySpecial(v);
    }

    method ApplySpecial(view: View) returns (v: View)
      requires !view.IsFloating()
      ensures v == SpecialApplied(view, outputs)
    {
      v := view;
      if !Usable(outputs, v.output) {
        return;
      }
      if v.fullscreen || v.maximized || v.edge {
        return v.(shape := Special);
      }
      v := ApplyRegion(v);
    }

    method ApplyRegion(view: View) returns (v: View)
      requires Usable(outputs, view.output) && (view.region.Some? || view.evacuate.Some?)
      ensures v == RegionApplied(view, outputs)
    {
      v := view;
      if v.evacuate.Some? {
        v := v.(region := Named(outputs[v.output.value].regions, v.evacuate.value));
        v := v.(evacuate := None);
        if v.region.None? {
          return v.Untiled().(shape := Natural);
        }
      }
      v := v.(shape := InRegion(v.region.value));
    }

    /** regions_reconfigure */
    method Reconfigure(config: seq<string>)
      requires Sound(Now())
      modifies this
      ensures Now() == Arranged(AllRebuilt(old(Now()), |old(outputs)|, config))
    {
      var o := 0;
      while o < |outputs|
        invariant 0 <= o <= |outputs| == |old(outputs)|
        invariant Sound(Now()) && Now() == AllRebuilt(old(Now()), o, config)
      {
        RebuiltIsSound(Now(), o, config);
        ReconfigureOutput(o, config);
        o := o + 1;
      }
      ArrangeAll();
    }
  }

  function OutputRebuilt(s: State, o: nat, config: seq<string>): State
    requires o < |s.outputs|
  {
    State(s.outputs[o := s.outputs[o].(regions := Built(config, o, s.made))], AllEvacuated(s.views, o),
          s.made + |config|)
  }

  lemma NothingToEvacuate(s: State, o: nat)
    requires o < |s.outputs| && Sound(s) && s.outputs[o].regions == []
    ensures AllEvacuated(s.views, o) == s.views
  {
    forall i | 0 <= i < |s.views| ensures Evacuated(s.views[i], o) == s.views[i] {
      assert ViewSound(s.views[i], s.outputs);
    }
  }

  function Arranged(s: State): State {
    s.(views := seq(|s.views|, i requires 0 <= i < |s.views| =>
      if s.views[i].sized then Adjusted(s.views[i], s.outputs) else s.views[i]))
  }

  /** The first n outputs have new regions. */
  function AllRebuilt(s: State, n: nat, config: seq<string>): (t: State)
    requires n <= |s.outputs|
    ensures |t.outputs| == |s.outputs| && |t.views| == |s.views|
  {
    if n == 0 then s else OutputRebuilt(AllRebuilt(s, n - 1, config), n - 1, config)
  }

  lemma RebuiltIsSound(s: State, o: nat, config: seq<string>)
    requires o < |s.outputs| && Sound(s)
    ensures Sound(OutputRebuilt(s, o, config))
  {
    var t := OutputRebuilt(s, o, config);
    forall p | 0 <= p < |t.outputs| ensures ListSound(t.outputs[p].regions, p, t.made) {
      assert ListSound(s.outputs[p].regions, p, s.made);
    }
    forall i | 0 <= i < |t.views| ensures ViewSound(t.views[i], t.outputs) {
      assert ViewSound(s.views[i], s.outputs);
    }
  }

  lemma ArrangedIsSound(s: State)
    requires Sound(s)
    ensures Sound(Arranged(s))
  {
    forall i | 0 <= i < |s.views| ensures ViewSound(Arranged(s).views[i], s.outputs) {
      assert ViewSound(s.views[i], s.outputs);
      AdjustedIsSound(s, s.views[i]);
    }
  }

  lemma RegionAppliedIsSound(s: State, v: View)
    requires ListsSound(s) && ViewSound(v, s.outputs)
    requires Usable(s.outputs, v.output) && (v.region.Some? || v.evacuate.Some?)
    ensures ViewSound(RegionApplied(v, s.outputs), s.outputs)
  {
    assert ListSound(s.outputs[v.output.value].regions, v.output.value, s.made);
  }

  lemma AdjustedIsSound(s: State, v: View)
    requires ListsSound(s) && ViewSound(v, s.outputs)
    ensures ViewSound(Adjusted(v, s.outputs), s.outputs)
  {
    var w := v.(output := v.home);
    if v.placed && !w.IsFloating() && Usable(s.outputs, w.output) && w.ShowsRegion() {
      RegionAppliedIsSound(s, w);
    }
  }

  lemma ReshapedIsSound(s: State, v: View, fullscreen: bool, maximized: bool)
    requires ListsSound(s) && ViewSound(v, s.outputs)
    ensures ViewSound(Reshaped(v, fullscreen, maximized, s.outputs), s.outputs)
  {
    var w := v.(fullscreen := fullscreen, maximized := maximized);
    if !w.IsFloating() && Usable(s.outputs, w.output) && w.ShowsRegion() {
      RegionAppliedIsSound(s, w);
    }
  }

  // ---- reconfiguring everything ----

  /** The region a window is tiled to, or was when the region was lost. */
  function RegionName(v: View): Option<string> {
    if v.region.Some? then Some(v.region.value.name) else v.evacuate
  }

  function Lost(v: View): View {
    v.(region := None, evacuate := RegionName(v))
  }

  /** What rebuilding the first n outputs has done. */
  predicate SoFar(s: State, n: nat, config: seq<string>, t: State) {
    && |t.outputs| == |s.outputs| && |t.views| == |s.views| && n <= |s.outputs|
    && (forall o :: 0 <= o < |s.outputs| ==> t.outputs[o].usable == s.outputs[o].usable)
    && (forall o :: 0 <= o < n ==> RegionsFor(t.outputs[o].regions, config, o))
    && forall i :: 0 <= i < |s.views| ==> t.views[i] == LostBelow(s.views[i], n)
  }

  lemma OneMoreRebuilt(s: State, n: nat, config: seq<string>, t: State)
    requires Sound(s) && SoFar(s, n, config, t) && n < |s.outputs|
    ensures SoFar(s, n + 1, config, OutputRebuilt(t, n, config))
  {
    var u := OutputRebuilt(t, n, config);
    forall i | 0 <= i < |s.views| ensures u.views[i] == LostBelow(s.views[i], n + 1) {
      assert ViewSound(s.views[i], s.outputs);
    }
  }

  lemma {:induction false} AllRebuiltIsSound(s: State, n: nat, config: seq<string>)
    requires Sound(s) && n <= |s.outputs|
    ensures Sound(AllRebuilt(s, n, config))
  {
    if n > 0 {
      AllRebuiltIsSound(s, n - 1, config);
      RebuiltIsSound(AllRebuilt(s, n - 1, config), n - 1, config);
    }
  }

  lemma {:induction false} RebuiltSoFar(s: State, n: nat, config: seq<string>)
    requires Sound(s) && n <= |s.outputs|
    ensures SoFar(s, n, config, AllRebuilt(s, n, config))
  {
    if n > 0 {
      RebuiltSoFar(s, n - 1, config);
      OneMoreRebuilt(s, n - 1, config, AllRebuilt(s, n - 1, config));
    } else {
      NoneRebuilt(s, config);
    }
  }

  lemma NoneRebuilt(s: State, config: seq<string>)
    ensures SoFar(s, 0, config, s)
  {
  }

  function LostBelow(v: View, n: nat): View {
    if v.region.Some? && v.region.value.output < n then Lost(v) else v
  }

  predicate RegionsFor(regions: seq<Region>, config: seq<string>, o: nat) {
    |regions| == |config| && forall k :: 0 <= k < |config| ==> regions[k].name == config[k] && regions[k].output == o
  }

  lemma {:induction false} NamedIff(regions: seq<Region>, config: seq<string>, o: nat, name: string)
    requires RegionsFor(regions, config, o)
    ensures Named(regions, name).Some? <==> name in config
  {
    if r :| r in regions && r.name == name {
      var k :| 0 <= k < |regions| && regions[k] == r;
      assert config[k] == name;
    }
    if name in config {
      var k :| 0 <= k < |config| && config[k] == name;
      assert regions[k].name == name;
    }
  }

  /** The window is arranged again, and nothing takes precedence over its region. */
  predicate Rearranged(s: State, v: View) {
    v.sized && v.placed && Usable(s.outputs, v.home) && v.ShowsRegion()
  }

  /**
   * Rebuilding all regions: a window that was tiled to a region is tiled to the
   * new region of the same name on its output, or floats in its natural
   * geometry if the name is gone, exactly when it is arranged again and not
   * fullscreen or maximized; otherwise it remembers the name.
   */
  lemma ReconfigureReattaches(s: State, config: seq<string>, i: nat)
    requires Sound(s) && i < |s.views| && RegionName(s.views[i]).Some?
    ensures var v, t := s.views[i], Arranged(AllRebuilt(s, |s.outputs|, config));
            var w, name := t.views[i], RegionName(v).value;
            && (w.evacuate.None? <==> Rearranged(s, v))
            && (w.evacuate.Some? ==> w.evacuate.value == name && w.region.None?)
            && (Rearranged(s, v) && name in config ==>
                  && w.region.Some? && w.region.value.name == name && w.region.value.output == v.home.value
                  && IsLive(t.outputs, w.region.value) && w.shape == InRegion(w.region.value))
            && (Rearranged(s, v) && name !in config ==> w.IsFloating() && w.shape == Natural)
  {
    RebuiltSoFar(s, |s.outputs|, config);
    assert ViewSound(s.views[i], s.outputs);
    Reattached(s, AllRebuilt(s, |s.outputs|, config), config, s.views[i]);
  }

  /** One window that has lost its region, arranged among the new regions. */
  lemma Reattached(s: State, r: State, config: seq<string>, v: View)
    requires SoFar(s, |s.outputs|, config, r) && ViewSound(v, s.outputs) && RegionName(v).Some?
    ensures var w, name := if v.sized then Adjusted(Lost(v), r.outputs) else Lost(v), RegionName(v).value;
            && (w.evacuate.None? <==> Rearranged(s, v))
            && (w.evacuate.Some? ==> w.evacuate.value == name && w.region.None?)
            && (Rearranged(s, v) && name in config ==>
                  && w.region.Some? && w.region.value.name == name && w.region.value.output == v.home.value
                  && IsLive(r.outputs, w.region.value) && w.shape == InRegion(w.region.value))
            && (Rearranged(s, v) && name !in config ==> w.IsFloating() && w.shape == Natural)
  {
    if Rearranged(s, v) {
      assert RegionsFor(r.outputs[v.home.value].regions, config, v.home.value);
      NamedIff(r.outputs[v.home.value].regions, config, v.home.value, RegionName(v).value);
    }
  }
}
