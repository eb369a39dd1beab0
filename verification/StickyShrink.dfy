/**
 Repeated shrinking against clients that round sizes down: the remembered edge keeps moving inwards until the
 window or the remembered size is the least one. The counterpart of StickyEdge.
 */
module StickyShrink {

  import opened Options
  import opened Geometry
  import opened Edges
  import opened Snap
  import opened SnapConstraints
  import opened Grow
  import opened XdgShell
  import opened StickyEdge
  import Shrink

  /** The size that the remembered edge stands for. */
  function Remembered(cfg: Setting, st: State, s: Side): int {
    Shrink.SizeAt(st.pending, s, Origin(cfg, st, s))
  }

  /** A state in which the command can be given: the remembered size is at least the least and at least the actual one. */
  predicate ReadyToShrink(cfg: Setting, env: Env, st: State, s: Side) {
    && cfg.Exact() && IntRegions(cfg.rs)
    && env.id == cfg.id && env.initialized && !env.fullscreen && env.grab == {}
    && Quiet(st) && Abs(Origin(cfg, st, s)) < 0x2000_0000
    && Remembered(cfg, st, s) >= Shrink.MinSize(s)
    && Remembered(cfg, st, s) >= Shrink.Size(st.pending, s)
  }

  /** The areas that the motion touches. */
  function AreasFor(cfg: Setting, origin: Box, half: Box): seq<Box> {
    if origin.Intersects(cfg.usable) || half.Intersects(cfg.usable) then [cfg.usable] else []
  }

  function OriginBox(cfg: Setting, st: State, s: Side): Box {
    Effective(st.hit, cfg.id, {s}, st.pending, st.pending)
  }

  function BoxesFor(cfg: Setting, st: State, s: Side): seq<Box> {
    AreasFor(cfg, OriginBox(cfg, st, s), Shrink.Halved(st.pending, s))
  }

  predicate CanSearch(cfg: Setting, st: State, s: Side) {
    Shrink.Searchable(cfg, BoxesFor(cfg, st, s), OriginBox(cfg, st, s), Shrink.Halved(st.pending, s))
  }

  /** view_shrink_to_edge, and then the answer of the client. */
  function Squeeze(cfg: Setting, env: Env, st: State, s: Side, offer: nat, want: Size): State {
    if CanSearch(cfg, st, s) then
      var (geo, hit) := Shrink.Shrunk(cfg, BoxesFor(cfg, st, s), st.pending, st.hit, s);
      var s1 := Configured(env, st.(hit := hit), geo, offer);
      if s1.serial > 0 && !geo.Empty() then
        Committed(env, s1, Commit(AtMost(want, geo), AtMost(want, geo), s1.serial, Keep))
      else s1
    else st
  }

  // ---- one step ----

  lemma HalfIs(cfg: Setting, env: Env, st: State, s: Side)
    requires ReadyToShrink(cfg, env, st, s)
    ensures var p := MovingEdge(Shrink.Halved(st.pending, s), s);
            Shrink.SizeAt(st.pending, s, p) == Max(Shrink.Size(st.pending, s) / 2, Shrink.MinSize(s)) && Abs(p) < 0x2000_0100
  {
    Shrink.HalvedMovesOneEdge(st.pending, s);
  }

  /** Where the search starts, and that all edges are ints. */
  lemma OriginIs(cfg: Setting, env: Env, st: State, s: Side)
    requires ReadyToShrink(cfg, env, st, s)
    ensures MovingEdge(OriginBox(cfg, st, s), s) == Origin(cfg, st, s)
    ensures CanSearch(cfg, st, s)
  {
    EffectiveOrigin(cfg, st.hit, s, st.pending);
    EdgesFit(cfg, OriginBox(cfg, st, s));
    HalvedFits(st.pending, s);
    EdgesFit(cfg, Shrink.Halved(st.pending, s));
  }

  lemma HalvedFits(b: Box, s: Side)
    requires Roomy(b) && !b.Empty()
    ensures Spacious(Shrink.Halved(b, s))
  {
  }

  /** No window stop lies between two sizes. */
  predicate NoneBetween(cfg: Setting, b: Box, s: Side, lo: int, hi: int)
    requires IntRegions(cfg.rs) && IsInt(cfg.gap)
  {
    forall o <- Offers(cfg.rs, s, cfg.gap) ::
      !(lo < Shrink.SizeAt(b, s, o - EdgeShift(cfg.margin, cfg.gap, s)) < hi)
  }

  /** The size that is asked for lies between the least size and the remembered one, and no stop is passed over. */
  lemma RequestedSize(cfg: Setting, env: Env, st: State, s: Side)
    requires ReadyToShrink(cfg, env, st, s) && Shrink.Size(st.pending, s) != Shrink.MinSize(s)
    requires CanSearch(cfg, st, s)
    ensures var geo := Shrink.Shrunk(cfg, BoxesFor(cfg, st, s), st.pending, st.hit, s).0;
            var q, m := MovingEdge(geo, s), Remembered(cfg, st, s);
            && geo == WithEdge(st.pending, s, q)
            && Shrink.MinSize(s) <= Shrink.SizeAt(st.pending, s, q)
            && (Shrink.SizeAt(st.pending, s, q) < m || m == Shrink.SizeAt(st.pending, s, q) == Shrink.MinSize(s))
            && NoneBetween(cfg, st.pending, s, Shrink.SizeAt(st.pending, s, q), m)
  {
    HalfIs(cfg, env, st, s);
    OriginIs(cfg, env, st, s);
    Shrink.ShrunkIsNextStop(cfg, BoxesFor(cfg, st, s), st.pending, st.hit, s);
    var geo := Shrink.Shrunk(cfg, BoxesFor(cfg, st, s), st.pending, st.hit, s).0;
    NextBySize(cfg, BoxesFor(cfg, st, s), st.pending, s, Origin(cfg, st, s), MovingEdge(Shrink.Halved(st.pending, s), s),
               MovingEdge(geo, s));
  }

  /** In sizes: the next stop lies between the limit and the start, and no window stop lies in between. */
  lemma NextBySize(cfg: Setting, bs: seq<Box>, b: Box, s: Side, from: int, limit: int, q: int)
    requires IntRegions(cfg.rs) && IsInt(cfg.gap) && IntBoxes(bs)
    requires Shrink.SizeAt(b, s, limit) <= Shrink.SizeAt(b, s, from) && Shrink.NextInwards(cfg, bs, s, from, limit, q)
    ensures Shrink.SizeAt(b, s, limit) <= Shrink.SizeAt(b, s, q)
    ensures Shrink.SizeAt(b, s, q) < Shrink.SizeAt(b, s, from) || q == limit
    ensures NoneBetween(cfg, b, s, Shrink.SizeAt(b, s, q), Shrink.SizeAt(b, s, from))
  {
    Shrink.NearestSize(cfg, bs, b, s, from, limit, q);
    Shrink.SizesAreDistances(b, s, q, limit);
    forall o | o in Offers(cfg.rs, s, cfg.gap)
      ensures !(Shrink.SizeAt(b, s, q) < Shrink.SizeAt(b, s, o - EdgeShift(cfg.margin, cfg.gap, s)) < Shrink.SizeAt(b, s, from))
    {
      assert o in Shrink.AreaOffers(bs, s) + Offers(cfg.rs, s, cfg.gap);
      NotBetween(Shrink.StopSizes(cfg, bs, b, s), Shrink.SizeAt(b, s, from), Shrink.SizeAt(b, s, limit), Shrink.SizeAt(b, s, q),
                 Shrink.SizeAt(b, s, o - EdgeShift(cfg.margin, cfg.gap, s)));
    }
    NotBetween(Shrink.StopSizes(cfg, bs, b, s), Shrink.SizeAt(b, s, from), Shrink.SizeAt(b, s, limit), Shrink.SizeAt(b, s, q),
               Shrink.SizeAt(b, s, q));
  }

  lemma NotBetween(sizes: set<int>, from: int, limit: int, q: int, x: int)
    requires limit <= from && Shrink.NearestOffer(sizes, 0, from, limit, q)
    ensures limit <= q && (q < from || q == limit)
    ensures x in sizes ==> !(q < x < from)
  {
    assert x - 0 == x;
  }

  // ---- the answer ----

  /** Moving side s leaves the opposite edge and the near edge of the other axis where they were. */
  lemma SameAnchor(was: Box, now: Box, s: Side, p: int)
    requires Anchored(s, was, now)
    ensures Shrink.SizeAt(now, s, p) == Shrink.SizeAt(was, s, p)
  {
  }

  /** The request is what the window already has: only the cache changes. */
  lemma SqueezeInPlace(cfg: Setting, env: Env, st: State, s: Side, offer: nat)
    requires env.id == cfg.id && env.initialized && !env.fullscreen && Quiet(st)
    ensures Configured(env, st.(hit := Recorded(cfg.id, {s}, st.pending)), st.pending, offer)
         == st.(hit := Recorded(cfg.id, {s}, st.pending))
  {
  }

  /** What the state after a command remembers. */
  lemma RemembersRequest(cfg: Setting, env: Env, st: State, t: State, s: Side, p: int)
    requires ReadyToShrink(cfg, env, st, s) && Quiet(t) && Anchored(s, st.pending, t.pending) && Abs(p) < 0x2000_0000
    requires t.hit.view == Some(cfg.id) && t.hit.sides == {s} && Recall(t.hit, s) == p && t.hit.geom == t.pending
    requires Shrink.SizeAt(st.pending, s, p) >= Shrink.MinSize(s) && Shrink.SizeAt(st.pending, s, p) >= Shrink.Size(t.pending, s)
    ensures ReadyToShrink(cfg, env, t, s) && Origin(cfg, t, s) == p && Remembered(cfg, t, s) == Shrink.SizeAt(st.pending, s, p)
  {
    ValidForOneSide(t.hit, cfg.id, s, t.pending);
    SameAnchor(st.pending, t.pending, s, p);
  }

  /** A window of the least size is left alone. */
  lemma SqueezeAtLeast(cfg: Setting, env: Env, st: State, s: Side, offer: nat, want: Size)
    requires ReadyToShrink(cfg, env, st, s) && Shrink.Size(st.pending, s) == Shrink.MinSize(s)
    ensures Squeeze(cfg, env, st, s, offer, want) == st
  {
    HalfIs(cfg, env, st, s);
  }

  /** Between the anchored edge and a roomy one. */
  lemma RequestIsRoomy(cfg: Setting, env: Env, st: State, s: Side, p: int)
    requires ReadyToShrink(cfg, env, st, s)
    requires 0 < Shrink.SizeAt(st.pending, s, p) <= Remembered(cfg, st, s)
    ensures Abs(p) < 0x2000_0000
  {
  }

  /** Otherwise the remembered size gets smaller, passing over no window, or is the least one for good. */
  lemma SqueezeMovesOn(cfg: Setting, env: Env, st: State, s: Side, offer: nat, want: Size)
    requires ReadyToShrink(cfg, env, st, s) && Shrink.Size(st.pending, s) != Shrink.MinSize(s) && offer > 0
    ensures var t := Squeeze(cfg, env, st, s, offer, want);
            && ReadyToShrink(cfg, env, t, s) && Anchored(s, st.pending, t.pending)
            && (Remembered(cfg, t, s) < Remembered(cfg, st, s)
                || Remembered(cfg, t, s) == Remembered(cfg, st, s) == Shrink.MinSize(s))
            && NoneBetween(cfg, st.pending, s, Remembered(cfg, t, s), Remembered(cfg, st, s))
  {
    OriginIs(cfg, env, st, s);
    RequestedSize(cfg, env, st, s);
    HalfIs(cfg, env, st, s);
    var p := MovingEdge(Shrink.Shrunk(cfg, BoxesFor(cfg, st, s), st.pending, st.hit, s).0, s);
    RequestIsRoomy(cfg, env, st, s, p);
    SqueezeForm(cfg, env, st, s, offer, want, p);
    SqueezeIs(cfg, env, st, s, offer, want, p);
  }

  lemma SqueezeForm(cfg: Setting, env: Env, st: State, s: Side, offer: nat, want: Size, p: int)
    requires CanSearch(cfg, st, s) && Shrink.Size(Shrink.Halved(st.pending, s), s) != Shrink.Size(st.pending, s)
    requires Shrink.Shrunk(cfg, BoxesFor(cfg, st, s), st.pending, st.hit, s).0 == WithEdge(st.pending, s, p)
    ensures Squeeze(cfg, env, st, s, offer, want) == Asked(cfg, env, st, s, offer, want, p)
  {
  }

  lemma SqueezeIs(cfg: Setting, env: Env, st: State, s: Side, offer: nat, want: Size, p: int)
    requires ReadyToShrink(cfg, env, st, s) && offer > 0 && Abs(p) < 0x2000_0000
    requires Shrink.SizeAt(st.pending, s, p) >= Shrink.MinSize(s)
    ensures var t := Asked(cfg, env, st, s, offer, want, p);
            && ReadyToShrink(cfg, env, t, s) && Anchored(s, st.pending, t.pending)
            && Remembered(cfg, t, s) == Shrink.SizeAt(st.pending, s, p)
  {
    var t := Asked(cfg, env, st, s, offer, want, p);
    if p == MovingEdge(st.pending, s) {
      assert WithEdge(st.pending, s, p) == st.pending;
      SqueezeInPlace(cfg, env, st, s, offer);
    } else {
      AnswerSettles(cfg, env, st, s, p, offer, want);
    }
    RemembersRequest(cfg, env, st, t, s, p);
  }

  // ---- runs ----

  function Squeezes(cfg: Setting, env: Env, st: State, s: Side, tries: seq<Try>): State
    decreases |tries|
  {
    if tries == [] then st else Squeezes(cfg, env, Squeeze(cfg, env, st, s, tries[0].offer, tries[0].want), s, tries[1..])
  }

  /** The window or the remembered size is the least one. */
  predicate Done(cfg: Setting, st: State, s: Side) {
    Shrink.Size(st.pending, s) == Shrink.MinSize(s) || Remembered(cfg, st, s) == Shrink.MinSize(s)
  }

  /** What one command achieves. */
  predicate Advanced(cfg: Setting, env: Env, st: State, t: State, s: Side) {
    && ReadyToShrink(cfg, env, t, s) && Anchored(s, st.pending, t.pending)
    && (Done(cfg, st, s) ==> Done(cfg, t, s))
    && (Done(cfg, t, s) || Remembered(cfg, t, s) < Remembered(cfg, st, s))
    && NoneBetween(cfg, st.pending, s, Remembered(cfg, t, s), Remembered(cfg, st, s))
  }

  lemma SqueezeAdvances(cfg: Setting, env: Env, st: State, s: Side, offer: nat, want: Size)
    requires ReadyToShrink(cfg, env, st, s) && offer > 0
    ensures Advanced(cfg, env, st, Squeeze(cfg, env, st, s, offer, want), s)
  {
    if Shrink.Size(st.pending, s) == Shrink.MinSize(s) {
      SqueezeAtLeast(cfg, env, st, s, offer, want);
    } else {
      SqueezeMovesOn(cfg, env, st, s, offer, want);
    }
  }

  /**
   Every command brings the remembered size strictly down until it, or the window, has the least size, and
   then it stays there; the opposite edge of the window never moves.
   */
  lemma {:induction false} SqueezesReachTheLeast(cfg: Setting, env: Env, st: State, s: Side, tries: seq<Try>)
    requires ReadyToShrink(cfg, env, st, s) && Serials(tries)
    ensures var t := Squeezes(cfg, env, st, s, tries);
            && ReadyToShrink(cfg, env, t, s) && Anchored(s, st.pending, t.pending)
            && (Done(cfg, t, s) || |tries| + Remembered(cfg, t, s) <= Remembered(cfg, st, s))
            && (Done(cfg, st, s) ==> Done(cfg, t, s))
    decreases |tries|
  {
    if tries != [] {
      assert tries[0] in tries;
      SqueezeAdvances(cfg, env, st, s, tries[0].offer, tries[0].want);
      SqueezesReachTheLeast(cfg, env, Squeeze(cfg, env, st, s, tries[0].offer, tries[0].want), s, tries[1..]);
    }
  }

  /** The sizes remembered after each command. */
  function Sizes(cfg: Setting, env: Env, st: State, s: Side, tries: seq<Try>): seq<int>
    decreases |tries|
  {
    if tries == [] then []
    else
      var t := Squeeze(cfg, env, st, s, tries[0].offer, tries[0].want);
      [Remembered(cfg, t, s)] + Sizes(cfg, env, t, s, tries[1..])
  }

  /** The size of a stop is the next one that is remembered, or lies below it. */
  lemma StopIsMetOrBelow(cfg: Setting, env: Env, st: State, t: State, s: Side, p: int)
    requires ReadyToShrink(cfg, env, st, s) && Advanced(cfg, env, st, t, s) && GrowStop(cfg, s, p)
    requires Shrink.SizeAt(st.pending, s, p) < Remembered(cfg, st, s)
    ensures Shrink.SizeAt(t.pending, s, p) == Shrink.SizeAt(st.pending, s, p) <= Remembered(cfg, t, s)
  {
    SameAnchor(st.pending, t.pending, s, p);
    StopNotBetween(cfg, st.pending, s, p, Remembered(cfg, t, s), Remembered(cfg, st, s));
  }

  /** On the way no edge of a neighbour is skipped: its size is the remembered one after some command. */
  lemma {:induction false} NoSizeIsSkipped(cfg: Setting, env: Env, st: State, s: Side, tries: seq<Try>, p: int)
    requires ReadyToShrink(cfg, env, st, s) && Serials(tries) && GrowStop(cfg, s, p)
    requires Shrink.SizeAt(st.pending, s, p) < Remembered(cfg, st, s)
    requires Shrink.SizeAt(st.pending, s, p) >= Remembered(cfg, Squeezes(cfg, env, st, s, tries), s)
    ensures Shrink.SizeAt(st.pending, s, p) in Sizes(cfg, env, st, s, tries)
    decreases |tries|
  {
    if tries != [] {
      assert tries[0] in tries;
      var x, t := Shrink.SizeAt(st.pending, s, p), Squeeze(cfg, env, st, s, tries[0].offer, tries[0].want);
      SqueezeAdvances(cfg, env, st, s, tries[0].offer, tries[0].want);
      StopIsMetOrBelow(cfg, env, st, t, s, p);
      if x < Remembered(cfg, t, s) {
        NoSizeIsSkipped(cfg, env, t, s, tries[1..], p);
      }
      SizesFrom(cfg, env, st, s, tries, x);
    }
  }

  lemma SizesFrom(cfg: Setting, env: Env, st: State, s: Side, tries: seq<Try>, x: int)
    requires tries != []
    ensures var t := Squeeze(cfg, env, st, s, tries[0].offer, tries[0].want);
            x in Sizes(cfg, env, st, s, tries) <==> x == Remembered(cfg, t, s) || x in Sizes(cfg, env, t, s, tries[1..])
  {
  }

  lemma StopNotBetween(cfg: Setting, b: Box, s: Side, p: int, lo: int, hi: int)
    requires IntRegions(cfg.rs) && IsInt(cfg.gap) && GrowStop(cfg, s, p) && NoneBetween(cfg, b, s, lo, hi)
    ensures !(lo < Shrink.SizeAt(b, s, p) < hi)
  {
    assert p + EdgeShift(cfg.margin, cfg.gap, s) - EdgeShift(cfg.margin, cfg.gap, s) == p;
  }

  // ---- the size that is asked for and the actual one ----

  /** The command asks for less than the window has exactly if no edge lies between its actual and its remembered size. */
  lemma SqueezeShrinksIff(cfg: Setting, env: Env, st: State, s: Side)
    requires ReadyToShrink(cfg, env, st, s) && Shrink.Size(st.pending, s) > Shrink.MinSize(s)
    requires CanSearch(cfg, st, s)
    ensures var bs := BoxesFor(cfg, st, s);
            Shrink.Size(Shrink.Shrunk(cfg, bs, st.pending, st.hit, s).0, s) < Shrink.Size(st.pending, s)
            <==> !Shrink.StopIn(Shrink.StopSizes(cfg, bs, st.pending, s), Shrink.Size(st.pending, s), Remembered(cfg, st, s))
  {
    HalfIs(cfg, env, st, s);
    OriginIs(cfg, env, st, s);
    Shrink.ShrinksIff(cfg, BoxesFor(cfg, st, s), st.pending, st.hit, s);
  }

  /** A screen with two neighbours whose right edges are 5 apart. */
  const TWO_NEIGHBOURS: Setting :=
    Setting(0, [Region(Border(200, 500, 300, -100), ALL_SIDES), Region(Border(200, 495, 300, -100), ALL_SIDES)],
            Box(0, 0, 1000, 1000), Border(0, 0, 0, 0), Border(0, 0, 0, 0), 0)

  const PLAIN: Env := Env(0, {}, false, Output(0, true, Box(0, 0, 1000, 1000)), Box(0, 0, 1000, 1000), true, true)

  lemma OffersOfTwo(a: Region, b: Region, s: Side)
    requires IntRegions([a, b])
    ensures Offers([a, b], s, 0) == {Opposing(a, s), Aligned(a, s, 0), Opposing(b, s), Aligned(b, s, 0)}
  {
    assert [a, b][..1] == [a] && [a][..0] == [];
    assert Offers([a], s, 0) == Offers([], s, 0) + {Opposing(a, s), Aligned(a, s, 0)};
  }

  lemma AreaOffersOf(bs: seq<Box>, usable: Box, s: Side)
    requires (bs == [] || bs == [usable]) && IntBoxes(bs) && IntBorder(BoxBorder(usable))
    ensures Shrink.AreaOffers(bs, s) <= {Offset(BoxBorder(usable), s), Get(UNBOUNDED, s)}
  {
    if bs != [] {
      assert bs[..0] == [];
      assert Shrink.AreaOffers([], s) == {};
    }
  }

  /** The edges there for the right side of a window. */
  lemma EdgesThere(bs: seq<Box>)
    requires (bs == [] || bs == [TWO_NEIGHBOURS.usable]) && IntBoxes(bs)
    ensures IntRegions(TWO_NEIGHBOURS.rs)
    ensures 495 in Offers(TWO_NEIGHBOURS.rs, Right, 0) && 500 in Offers(TWO_NEIGHBOURS.rs, Right, 0)
    ensures forall o <- Shrink.AreaOffers(bs, Right) + Offers(TWO_NEIGHBOURS.rs, Right, 0) :: o <= 495 || o == 500 || o >= 1000
  {
    OffersOfTwo(TWO_NEIGHBOURS.rs[0], TWO_NEIGHBOURS.rs[1], Right);
    AreaOffersOf(bs, TWO_NEIGHBOURS.usable, Right);
  }

  /** q is an offer on the way, in the coordinates of the window, and no other one is as near. */
  ghost predicate Nearest(offers: set<int>, shift: int, from: int, limit: int, q: int) {
    q + shift in offers && Ahead(q, from, limit) && forall o <- offers :: Ahead(o - shift, from, q) ==> o == q + shift
  }

  lemma NearestIsUnique(offers: set<int>, shift: int, from: int, limit: int, q: int, r: int)
    requires Nearest(offers, shift, from, limit, q) && Shrink.NearestOffer(offers, shift, from, limit, r)
    ensures r == q
  {
    assert q + shift - shift == q;
    assert r + shift - shift == r;
  }

  /** The request moves the side to that offer. */
  lemma StopsAt(cfg: Setting, env: Env, st: State, s: Side, q: int)
    requires ReadyToShrink(cfg, env, st, s) && CanSearch(cfg, st, s) && Shrink.Size(st.pending, s) != Shrink.MinSize(s)
    requires Nearest(Shrink.AreaOffers(BoxesFor(cfg, st, s), s) + Offers(cfg.rs, s, cfg.gap), EdgeShift(cfg.margin, cfg.gap, s),
                     Origin(cfg, st, s), MovingEdge(Shrink.Halved(st.pending, s), s), q)
    ensures Shrink.Shrunk(cfg, BoxesFor(cfg, st, s), st.pending, st.hit, s).0 == WithEdge(st.pending, s, q)
  {
    HalfIs(cfg, env, st, s);
    OriginIs(cfg, env, st, s);
    Shrink.ShrunkIsNextStop(cfg, BoxesFor(cfg, st, s), st.pending, st.hit, s);
    NearestIsUnique(Shrink.AreaOffers(BoxesFor(cfg, st, s), s) + Offers(cfg.rs, s, cfg.gap), EdgeShift(cfg.margin, cfg.gap, s),
                    Origin(cfg, st, s), MovingEdge(Shrink.Halved(st.pending, s), s), q,
                    MovingEdge(Shrink.Shrunk(cfg, BoxesFor(cfg, st, s), st.pending, st.hit, s).0, s));
  }

  function AtOrigin(width: int, hit: Hit): State {
    State(Box(0, 0, width, 100), Box(0, 0, width, 100), 0, false, hit)
  }

  lemma ReadyOnScreen(width: int, hit: Hit)
    requires 200 <= width < 1000
    requires hit == NO_HIT || exists r :: width <= r < 1000 && hit == Hit(Some(0), false, INT_MIN, r, {Right}, Box(0, 0, width, 100))
    ensures ReadyToShrink(TWO_NEIGHBOURS, PLAIN, AtOrigin(width, hit), Right)
    ensures Origin(TWO_NEIGHBOURS, AtOrigin(width, hit), Right) == if hit == NO_HIT then width else hit.horizontal
  {
    var st := AtOrigin(width, hit);
    if hit != NO_HIT {
      ValidForOneSide(hit, 0, Right, st.pending);
    }
    EdgesThere([]);
  }

  /** Moving the right edge in on that screen. */
  lemma StopsOnScreen(st: State, q: int)
    requires ReadyToShrink(TWO_NEIGHBOURS, PLAIN, st, Right) && st.pending.x == 0 && 200 <= st.pending.width < 990
    requires var from := Origin(TWO_NEIGHBOURS, st, Right); (500 < from < 1000 && q == 500) || (from == 500 && q == 495)
    ensures CanSearch(TWO_NEIGHBOURS, st, Right)
    ensures Shrink.Shrunk(TWO_NEIGHBOURS, BoxesFor(TWO_NEIGHBOURS, st, Right), st.pending, st.hit, Right).0
         == WithEdge(st.pending, Right, q)
  {
    OriginIs(TWO_NEIGHBOURS, PLAIN, st, Right);
    NearestThere(BoxesFor(TWO_NEIGHBOURS, st, Right), Origin(TWO_NEIGHBOURS, st, Right),
                 MovingEdge(Shrink.Halved(st.pending, Right), Right), q);
    StopsAt(TWO_NEIGHBOURS, PLAIN, st, Right, q);
  }

  lemma NearestThere(bs: seq<Box>, from: int, limit: int, q: int)
    requires (bs == [] || bs == [TWO_NEIGHBOURS.usable]) && IntBoxes(bs)
    requires (500 < from < 1000 && q == 500) || (from == 500 && q == 495)
    requires limit <= 495
    ensures IntRegions(TWO_NEIGHBOURS.rs)
    ensures Nearest(Shrink.AreaOffers(bs, Right) + Offers(TWO_NEIGHBOURS.rs, Right, TWO_NEIGHBOURS.gap),
                    EdgeShift(TWO_NEIGHBOURS.margin, TWO_NEIGHBOURS.gap, Right), from, limit, q)
  {
    EdgesThere(bs);
  }

  /** What is remembered of an answer of 480 to a request for 500. */
  const ROUNDED: Hit := Hit(Some(0), false, INT_MIN, 500, {Right}, Box(0, 0, 480, 100))

  lemma Answered480()
    ensures Asked(TWO_NEIGHBOURS, PLAIN, AtOrigin(900, NO_HIT), Right, 1, XdgShell.Size(480, 100), 500) == AtOrigin(480, ROUNDED)
  {
  }

  lemma SqueezedTo480()
    ensures ReadyToShrink(TWO_NEIGHBOURS, PLAIN, AtOrigin(900, NO_HIT), Right)
    ensures Squeeze(TWO_NEIGHBOURS, PLAIN, AtOrigin(900, NO_HIT), Right, 1, XdgShell.Size(480, 100)) == AtOrigin(480, ROUNDED)
  {
    ReadyOnScreen(900, NO_HIT);
    StopsOnScreen(AtOrigin(900, NO_HIT), 500);
    SqueezeForm(TWO_NEIGHBOURS, PLAIN, AtOrigin(900, NO_HIT), Right, 1, XdgShell.Size(480, 100), 500);
    Answered480();
  }

  /**
   A window 900 wide is asked to shrink to a neighbour's edge at 500, and its client settles for 480. Shrinking it
   again asks for 495: more than it has, although it is far from the least size.
   */
  lemma SqueezingEnlarges()
    ensures ReadyToShrink(TWO_NEIGHBOURS, PLAIN, AtOrigin(900, NO_HIT), Right)
    ensures var t := Squeeze(TWO_NEIGHBOURS, PLAIN, AtOrigin(900, NO_HIT), Right, 1, XdgShell.Size(480, 100));
            && t == AtOrigin(480, ROUNDED) && CanSearch(TWO_NEIGHBOURS, t, Right)
            && Shrink.Shrunk(TWO_NEIGHBOURS, BoxesFor(TWO_NEIGHBOURS, t, Right), t.pending, t.hit, Right).0
            == t.pending.(width := 495)
  {
    SqueezedTo480();
    ReadyOnScreen(480, ROUNDED);
    StopsOnScreen(AtOrigin(480, ROUNDED), 495);
  }
}
