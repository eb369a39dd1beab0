/**
 Growing and shrinking the same side in turn. Both commands search from the remembered edge, and each leaves the
 cache to the other: resize_edges is the side that moves in either of them (src/snap.c).
 */
module StickyMixed {

  import opened Options
  import opened Geometry
  import opened Edges
  import opened Snap
  import opened SnapConstraints
  import opened Grow
  import opened XdgShell
  import opened StickyEdge
  import opened StickyShrink
  import Shrink

  /** A coordinate of side s, counted outwards. */
  function Out(s: Side, p: int): int {
    if IsLesser(s) then -p else p
  }

  /** A state in which either command can be given. */
  predicate ReadyForBoth(cfg: Setting, env: Env, st: State, s: Side) {
    Ready(cfg, env, st, s) && ReadyToShrink(cfg, env, st, s)
  }

  lemma SizesGoOut(b: Box, s: Side, p: int, q: int)
    ensures Shrink.SizeAt(b, s, q) - Shrink.SizeAt(b, s, p) == Out(s, q) - Out(s, p)
    ensures Shrink.SizeAt(b, s, MovingEdge(b, s)) == Shrink.Size(b, s)
    ensures NotPast(s, p, q) <==> Out(s, p) <= Out(s, q)
  {
  }

  /** What a state ready for both commands says about the remembered edge. */
  lemma Remembering(cfg: Setting, env: Env, st: State, s: Side)
    requires ReadyForBoth(cfg, env, st, s)
    ensures Out(s, MovingEdge(st.pending, s)) <= Out(s, Origin(cfg, st, s)) <= Out(s, cfg.Limit(s))
  {
  }

  /** A state that is ready to shrink can also grow, if its remembered edge is within the output. */
  lemma ReadyWithinLimit(cfg: Setting, env: Env, st: State, s: Side)
    requires ReadyToShrink(cfg, env, st, s) && Abs(cfg.Limit(s)) < 0x2000_0000
    requires Out(s, Origin(cfg, st, s)) <= Out(s, cfg.Limit(s))
    ensures Ready(cfg, env, st, s)
  {
    SizesGoOut(st.pending, s, MovingEdge(st.pending, s), Origin(cfg, st, s));
  }

  /** A state that is ready to grow can also shrink, if it remembers at least the least size. */
  lemma ReadyAboveLeast(cfg: Setting, env: Env, st: State, s: Side)
    requires Ready(cfg, env, st, s) && Abs(Origin(cfg, st, s)) < 0x2000_0000
    requires Remembered(cfg, st, s) >= Shrink.MinSize(s)
    ensures ReadyToShrink(cfg, env, st, s)
  {
    SizesGoOut(st.pending, s, MovingEdge(st.pending, s), Origin(cfg, st, s));
  }

  // ---- one command ----

  /** q is the next place outwards from `from`. */
  ghost predicate NextOut(cfg: Setting, s: Side, from: int, q: int)
    requires IntRegions(cfg.rs) && IsInt(cfg.gap)
  {
    && Out(s, from) <= Out(s, q) <= Out(s, cfg.Limit(s))
    && (from == q ==> from == cfg.Limit(s))
    && (from != q ==> q == cfg.Limit(s) || GrowStop(cfg, s, q))
    && forall p :: GrowStop(cfg, s, p) && Out(s, from) < Out(s, p) <= Out(s, cfg.Limit(s)) ==> Out(s, q) <= Out(s, p)
  }

  lemma NextStopIsOut(cfg: Setting, s: Side, from: int, q: int)
    requires IntRegions(cfg.rs) && IsInt(cfg.gap)
    requires Out(s, from) <= Out(s, cfg.Limit(s)) && NextStop(cfg, s, from, q)
    ensures NextOut(cfg, s, from, q)
  {
    forall p | GrowStop(cfg, s, p) && Out(s, from) < Out(s, p) <= Out(s, cfg.Limit(s)) ensures Out(s, q) <= Out(s, p) {
      assert Ahead(p, from, cfg.Limit(s));
    }
  }

  lemma PressKeepsReady(cfg: Setting, env: Env, st: State, s: Side, offer: nat, want: Size)
    requires ReadyForBoth(cfg, env, st, s) && offer > 0
    ensures var t := Press(cfg, env, st, s, offer, want);
            && ReadyForBoth(cfg, env, t, s) && Anchored(s, st.pending, t.pending)
            && NextOut(cfg, s, Origin(cfg, st, s), Origin(cfg, t, s))
  {
    var t := Press(cfg, env, st, s, offer, want);
    PressAdvances(cfg, env, st, s, offer, want);
    Remembering(cfg, env, st, s);
    NextStopIsOut(cfg, s, Origin(cfg, st, s), Origin(cfg, t, s));
    SameAnchor(st.pending, t.pending, s, Origin(cfg, t, s));
    SizesGoOut(st.pending, s, Origin(cfg, st, s), Origin(cfg, t, s));
    ReadyAboveLeast(cfg, env, t, s);
  }

  /** No window stop lies strictly between two places. */
  ghost predicate NoStopBetween(cfg: Setting, s: Side, from: int, to: int)
    requires IntRegions(cfg.rs) && IsInt(cfg.gap)
  {
    forall p :: GrowStop(cfg, s, p) ==> !(Out(s, from) < Out(s, p) < Out(s, to))
  }

  lemma SqueezeKeepsReady(cfg: Setting, env: Env, st: State, s: Side, offer: nat, want: Size)
    requires ReadyForBoth(cfg, env, st, s) && offer > 0
    ensures var t := Squeeze(cfg, env, st, s, offer, want);
            && ReadyForBoth(cfg, env, t, s) && Anchored(s, st.pending, t.pending)
            && Out(s, Origin(cfg, t, s)) <= Out(s, Origin(cfg, st, s))
            && (!Done(cfg, st, s) ==> Origin(cfg, t, s) != Origin(cfg, st, s))
            && NoStopBetween(cfg, s, Origin(cfg, t, s), Origin(cfg, st, s))
  {
    var t := Squeeze(cfg, env, st, s, offer, want);
    Remembering(cfg, env, st, s);
    if Shrink.Size(st.pending, s) == Shrink.MinSize(s) {
      SqueezeAtLeast(cfg, env, st, s, offer, want);
    } else {
      SqueezeMovesOn(cfg, env, st, s, offer, want);
      SameAnchor(st.pending, t.pending, s, Origin(cfg, t, s));
      SizesGoOut(st.pending, s, Origin(cfg, st, s), Origin(cfg, t, s));
      ReadyWithinLimit(cfg, env, t, s);
      BetweenInSizes(cfg, st.pending, s, Origin(cfg, t, s), Origin(cfg, st, s));
    }
  }

  lemma BetweenInSizes(cfg: Setting, b: Box, s: Side, from: int, to: int)
    requires IntRegions(cfg.rs) && IsInt(cfg.gap)
    requires NoneBetween(cfg, b, s, Shrink.SizeAt(b, s, from), Shrink.SizeAt(b, s, to))
    ensures NoStopBetween(cfg, s, from, to)
  {
    forall p | GrowStop(cfg, s, p) ensures !(Out(s, from) < Out(s, p) < Out(s, to)) {
      StopNotBetween(cfg, b, s, p, Shrink.SizeAt(b, s, from), Shrink.SizeAt(b, s, to));
      SizesGoOut(b, s, from, p);
      SizesGoOut(b, s, p, to);
    }
  }

  // ---- runs of both ----

  datatype Command = Outwards(try: Try) | Inwards(try: Try)

  function Do(cfg: Setting, env: Env, st: State, s: Side, c: Command): State {
    match c
    case Outwards(try) => Press(cfg, env, st, s, try.offer, try.want)
    case Inwards(try) => Squeeze(cfg, env, st, s, try.offer, try.want)
  }

  function DoAll(cfg: Setting, env: Env, st: State, s: Side, cs: seq<Command>): State
    decreases |cs|
  {
    if cs == [] then st else DoAll(cfg, env, Do(cfg, env, st, s, cs[0]), s, cs[1..])
  }

  /**
   However the two commands are mixed and whatever sizes the client settles for: the remembered edge stays between
   the edge of the window and the edge of the output, and at or above the least size, and the opposite edge of the
   window never moves.
   */
  lemma {:induction false} MixedRunsStayReady(cfg: Setting, env: Env, st: State, s: Side, cs: seq<Command>)
    requires ReadyForBoth(cfg, env, st, s) && forall c <- cs :: c.try.offer > 0
    ensures var t := DoAll(cfg, env, st, s, cs);
            && ReadyForBoth(cfg, env, t, s) && Anchored(s, st.pending, t.pending)
            && Out(s, MovingEdge(t.pending, s)) <= Out(s, Origin(cfg, t, s)) <= Out(s, cfg.Limit(s))
            && Remembered(cfg, t, s) >= Shrink.MinSize(s)
    decreases |cs|
  {
    if cs == [] {
      Remembering(cfg, env, st, s);
    } else {
      assert cs[0] in cs;
      match cs[0] {
        case Outwards(try) => PressKeepsReady(cfg, env, st, s, try.offer, try.want);
        case Inwards(try) => SqueezeKeepsReady(cfg, env, st, s, try.offer, try.want);
      }
      MixedRunsStayReady(cfg, env, Do(cfg, env, st, s, cs[0]), s, cs[1..]);
    }
  }

  // ---- growing takes shrinking back ----

  /** Each of these commands makes the remembered size smaller. */
  predicate AllShrink(cfg: Setting, env: Env, st: State, s: Side, tries: seq<Try>)
    decreases |tries|
  {
    tries != [] ==>
      && !Done(cfg, st, s)
      && AllShrink(cfg, env, Squeeze(cfg, env, st, s, tries[0].offer, tries[0].want), s, tries[1..])
  }

  /** Each of these commands starts with the side at the edge of a neighbour. */
  predicate AllFromStops(cfg: Setting, env: Env, st: State, s: Side, tries: seq<Try>)
    requires IntRegions(cfg.rs) && IsInt(cfg.gap)
    decreases |tries|
  {
    tries != [] ==>
      && GrowStop(cfg, s, Origin(cfg, st, s))
      && AllFromStops(cfg, env, Squeeze(cfg, env, st, s, tries[0].offer, tries[0].want), s, tries[1..])
  }

  /** One press takes the last squeeze back exactly if that started from a window's edge or the output's. */
  lemma PressTakesBackIff(cfg: Setting, s: Side, m: int, below: int, p: int, q: int)
    requires IntRegions(cfg.rs) && IsInt(cfg.gap)
    requires Out(s, below) < Out(s, m) <= Out(s, cfg.Limit(s)) && NoStopBetween(cfg, s, below, m)
    requires p == below || (Out(s, below) < Out(s, p) && (GrowStop(cfg, s, p) || p == cfg.Limit(s)))
    requires NextOut(cfg, s, p, q)
    ensures Out(s, m) <= Out(s, q)
    ensures q == m <==> m == cfg.Limit(s) || (p == below && GrowStop(cfg, s, m))
  {
  }

  lemma {:induction false} PressesSplit(cfg: Setting, env: Env, st: State, s: Side, tries: seq<Try>, last: Try)
    ensures Presses(cfg, env, st, s, tries + [last]) == Press(cfg, env, Presses(cfg, env, st, s, tries), s, last.offer, last.want)
    decreases |tries|
  {
    if tries == [] {
      assert tries + [last] == [last];
      assert [last][1..] == [];
    } else {
      assert (tries + [last])[0] == tries[0] && (tries + [last])[1..] == tries[1..] + [last];
      PressesSplit(cfg, env, Press(cfg, env, st, s, tries[0].offer, tries[0].want), s, tries[1..], last);
    }
  }

  /** What n squeezes and then n presses come to. */
  ghost predicate TakenBack(cfg: Setting, env: Env, st: State, v: State, s: Side, tries: seq<Try>)
    requires IntRegions(cfg.rs) && IsInt(cfg.gap)
  {
    var m, q := Origin(cfg, st, s), Origin(cfg, v, s);
    && ReadyForBoth(cfg, env, v, s) && Anchored(s, st.pending, v.pending)
    && Out(s, m) <= Out(s, q)
    && (q == m <==> m == cfg.Limit(s) || AllFromStops(cfg, env, st, s, tries))
    && (q == m || GrowStop(cfg, s, q) || q == cfg.Limit(s))
  }

  /**
   After n commands that shrink, n that grow bring the remembered edge back to where it was exactly if it was at
   the edge of the output, or every one of the n started at the edge of a window. Otherwise it ends further out.
   The sizes that the client settles for on the way do not matter.
   */
  lemma {:induction false} GrowingTakesBackIff(cfg: Setting, env: Env, st: State, s: Side, ins: seq<Try>, outs: seq<Try>)
    requires ReadyForBoth(cfg, env, st, s) && Serials(ins) && Serials(outs) && |ins| == |outs|
    requires AllShrink(cfg, env, st, s, ins)
    ensures TakenBack(cfg, env, st, Presses(cfg, env, Squeezes(cfg, env, st, s, ins), s, outs), s, ins)
    decreases |ins|
  {
    if ins == [] {
      NothingTakenBack(cfg, env, st, s);
    } else {
      var t := Squeeze(cfg, env, st, s, ins[0].offer, ins[0].want);
      SerialsOfParts(ins);
      SerialsOfParts(outs);
      SqueezeKeepsReady(cfg, env, st, s, ins[0].offer, ins[0].want);
      GrowingTakesBackIff(cfg, env, t, s, ins[1..], outs[..|outs| - 1]);
      LastPress(cfg, env, st, t, Presses(cfg, env, Squeezes(cfg, env, t, s, ins[1..]), s, outs[..|outs| - 1]), s, ins,
                outs[|outs| - 1]);
      OuterPair(cfg, env, st, s, ins, outs);
    }
  }

  /** The first of the squeezes and the last of the presses around the others. */
  lemma OuterPair(cfg: Setting, env: Env, st: State, s: Side, ins: seq<Try>, outs: seq<Try>)
    requires ins != [] && outs != []
    ensures var t, last := Squeeze(cfg, env, st, s, ins[0].offer, ins[0].want), outs[|outs| - 1];
            Presses(cfg, env, Squeezes(cfg, env, st, s, ins), s, outs) ==
            Press(cfg, env, Presses(cfg, env, Squeezes(cfg, env, t, s, ins[1..]), s, outs[..|outs| - 1]), s, last.offer, last.want)
  {
    var n := |outs| - 1;
    assert outs == outs[..n] + [outs[n]];
    PressesSplit(cfg, env, Squeezes(cfg, env, st, s, ins), s, outs[..n], outs[n]);
  }

  lemma NothingTakenBack(cfg: Setting, env: Env, st: State, s: Side)
    requires ReadyForBoth(cfg, env, st, s)
    ensures TakenBack(cfg, env, st, st, s, [])
  {
    Remembering(cfg, env, st, s);
  }

  lemma SerialsOfParts(tries: seq<Try>)
    requires Serials(tries) && tries != []
    ensures Serials(tries[1..]) && Serials(tries[..|tries| - 1]) && tries[0].offer > 0 && tries[|tries| - 1].offer > 0
  {
    assert tries[0] in tries && tries[|tries| - 1] in tries;
  }

  lemma LastPress(cfg: Setting, env: Env, st: State, t: State, v: State, s: Side, ins: seq<Try>, last: Try)
    requires ReadyForBoth(cfg, env, st, s) && ins != [] && !Done(cfg, st, s) && ins[0].offer > 0 && last.offer > 0
    requires t == Squeeze(cfg, env, st, s, ins[0].offer, ins[0].want)
    requires TakenBack(cfg, env, t, v, s, ins[1..])
    ensures TakenBack(cfg, env, st, Press(cfg, env, v, s, last.offer, last.want), s, ins)
  {
    SqueezeKeepsReady(cfg, env, st, s, ins[0].offer, ins[0].want);
    PressKeepsReady(cfg, env, v, s, last.offer, last.want);
    Remembering(cfg, env, st, s);
    Remembering(cfg, env, v, s);
    PressTakesBackIff(cfg, s, Origin(cfg, st, s), Origin(cfg, t, s), Origin(cfg, v, s),
                      Origin(cfg, Press(cfg, env, v, s, last.offer, last.want), s));
    AnchoredTwice(s, st.pending, t.pending, v.pending);
    AnchoredTwice(s, st.pending, v.pending, Press(cfg, env, v, s, last.offer, last.want).pending);
  }

  lemma AnchoredTwice(s: Side, a: Box, b: Box, c: Box)
    requires Anchored(s, a, b) && Anchored(s, b, c)
    ensures Anchored(s, a, c)
  {
  }

  // ---- shrinking takes growing back ----

  lemma NearestIsIff(sizes: set<int>, from: int, limit: int, x: int, y: int)
    requires limit <= from && y < from && Shrink.NearestOffer(sizes, 0, from, limit, x)
    ensures x == y <==> limit <= y && (y == limit || y in sizes) && !Shrink.StopIn(sizes, y + 1, from)
  {
    assert x + 0 == x && y - 0 == y;
    forall z | z in sizes ensures z - 0 == z {
    }
    if limit <= y && (y == limit || y in sizes) && !Shrink.StopIn(sizes, y + 1, from) && x != y {
      assert x in sizes || y in sizes;
      assert Ahead(y - 0, from, limit);
    }
    if limit <= y < from && Shrink.StopIn(sizes, y + 1, from) {
      var z :| z in sizes && y + 1 <= z < from;
      assert Ahead(z - 0, from, limit);
    }
  }

  /** The size that is remembered after a command that shrinks. */
  lemma SqueezeRemembersIff(cfg: Setting, env: Env, st: State, s: Side, offer: nat, want: Size, y: int)
    requires ReadyToShrink(cfg, env, st, s) && offer > 0 && Shrink.Size(st.pending, s) != Shrink.MinSize(s)
    requires y < Remembered(cfg, st, s)
    ensures CanSearch(cfg, st, s)
    ensures var half := Max(Shrink.Size(st.pending, s) / 2, Shrink.MinSize(s));
            var sizes := Shrink.StopSizes(cfg, BoxesFor(cfg, st, s), st.pending, s);
            Remembered(cfg, Squeeze(cfg, env, st, s, offer, want), s) == y <==>
              half <= y && (y == half || y in sizes) && !Shrink.StopIn(sizes, y + 1, Remembered(cfg, st, s))
  {
    HalfIs(cfg, env, st, s);
    OriginIs(cfg, env, st, s);
    RequestedSize(cfg, env, st, s);
    var bs, half := BoxesFor(cfg, st, s), MovingEdge(Shrink.Halved(st.pending, s), s);
    var p := MovingEdge(Shrink.Shrunk(cfg, bs, st.pending, st.hit, s).0, s);
    RequestIsRoomy(cfg, env, st, s, p);
    SqueezeForm(cfg, env, st, s, offer, want, p);
    SqueezeIs(cfg, env, st, s, offer, want, p);
    Shrink.ShrunkIsNextStop(cfg, bs, st.pending, st.hit, s);
    Shrink.NearestSize(cfg, bs, st.pending, s, Origin(cfg, st, s), half, p);
    NearestIsIff(Shrink.StopSizes(cfg, bs, st.pending, s), Remembered(cfg, st, s), Shrink.SizeAt(st.pending, s, half),
                 Shrink.SizeAt(st.pending, s, p), y);
  }

  /**
   A command that shrinks takes the growing before it back exactly if the edge from which that started is a stop
   inwards too, no nearer one comes in between, and half of what the client settled for is not more.
   */
  lemma ShrinkingTakesBackIff(cfg: Setting, env: Env, st: State, s: Side, out: Try, back: Try)
    requires ReadyForBoth(cfg, env, st, s) && out.offer > 0 && back.offer > 0 && Origin(cfg, st, s) != cfg.Limit(s)
    ensures var t := Press(cfg, env, st, s, out.offer, out.want);
            var u := Squeeze(cfg, env, t, s, back.offer, back.want);
            && IntRegions(cfg.rs) && IsInt(cfg.gap) && IntBoxes(BoxesFor(cfg, t, s))
            && (Origin(cfg, u, s) == Origin(cfg, st, s) <==>
                  var m, w := Remembered(cfg, st, s), Shrink.Size(t.pending, s);
                  var half, sizes := Max(w / 2, Shrink.MinSize(s)), Shrink.StopSizes(cfg, BoxesFor(cfg, t, s), t.pending, s);
                  && w != Shrink.MinSize(s) && half <= m && (m == half || m in sizes)
                  && !Shrink.StopIn(sizes, m + 1, Remembered(cfg, t, s)))
  {
    var t := Press(cfg, env, st, s, out.offer, out.want);
    var u := Squeeze(cfg, env, t, s, back.offer, back.want);
    PressKeepsReady(cfg, env, st, s, out.offer, out.want);
    SqueezeKeepsReady(cfg, env, t, s, back.offer, back.want);
    SameAnchor(st.pending, t.pending, s, Origin(cfg, st, s));
    SameAnchor(t.pending, u.pending, s, Origin(cfg, u, s));
    SizesGoOut(t.pending, s, Origin(cfg, st, s), Origin(cfg, t, s));
    SizesGoOut(t.pending, s, Origin(cfg, st, s), Origin(cfg, u, s));
    OriginIs(cfg, env, t, s);
    if Shrink.Size(t.pending, s) == Shrink.MinSize(s) {
      SqueezeAtLeast(cfg, env, t, s, back.offer, back.want);
    } else {
      SqueezeRemembersIff(cfg, env, t, s, back.offer, back.want, Remembered(cfg, st, s));
    }
  }
}
