/**
 Repeated growing against clients that round sizes down: no edge holds the window for ever.
 Combines src/snap.c, src/snap-constraints.c, src/xdg.c and src/view-impl-common.c.
 */
module StickyEdge {
  import opened Options
  import opened Geometry
  import opened Edges
  import opened Snap
  import opened SnapConstraints
  import opened Grow
  import opened XdgShell

  /** A box whose edges are far from the limits of an int. */
  predicate Roomy(b: Box) {
    && Abs(b.x) < 0x2000_0000 && Abs(b.y) < 0x2000_0000
    && Abs(b.Right()) < 0x2000_0000 && Abs(b.Bottom()) < 0x2000_0000
  }

  /** a is at or behind b for an edge that moves in direction dir. */
  predicate NotPast(dir: Side, a: int, b: int) {
    if IsLesser(dir) then b <= a else a <= b
  }

  function Recall(hit: Hit, dir: Side): int {
    if Horizontal(dir) then hit.horizontal else hit.vertical
  }

  /** No request is outstanding, the geometries agree and the box has a size. */
  predicate Quiet(s: State) {
    s.serial == 0 && !s.timer && s.pending == s.current && !s.pending.Empty() && Roomy(s.pending)
  }

  /** The cache belongs to this geometry and remembers an edge between the window and the edge of the output. */
  predicate Remembers(cfg: Setting, s: State, dir: Side) {
    && Valid(s.hit, cfg.id, {dir}, s.pending)
    && NotPast(dir, MovingEdge(s.pending, dir), Recall(s.hit, dir))
    && NotPast(dir, Recall(s.hit, dir), cfg.Limit(dir))
  }

  /** With a single side, validity is about the view, the remembered edge and the expected geometry. */
  lemma ValidForOneSide(hit: Hit, id: nat, dir: Side, pending: Box)
    requires hit.view == Some(id) && hit.sides == {dir} && Bounded(Recall(hit, dir)) && pending == hit.geom
    ensures Valid(hit, id, {dir}, pending)
  {
    assert dir in {dir} * (if Horizontal(dir) then {Left, Right} else {Top, Bottom});
    assert Left !in {dir} || Right !in {dir};
    assert Top !in {dir} || Bottom !in {dir};
    if !Horizontal(dir) {
      assert {dir} * {Left, Right} == {};
    }
  }

  /** From where the next step searches: the remembered edge, or the edge of the window itself. */
  function Origin(cfg: Setting, s: State, dir: Side): int {
    if Valid(s.hit, cfg.id, {dir}, s.pending) then Recall(s.hit, dir) else MovingEdge(s.pending, dir)
  }

  /** A state in which the command can be given: the cache is either of no use, or remembers well. */
  predicate Ready(cfg: Setting, env: Env, s: State, dir: Side) {
    && cfg.Exact() && IntRegions(cfg.rs)
    && env.id == cfg.id && env.initialized && !env.fullscreen && env.grab == {}
    && Quiet(s) && Abs(cfg.Limit(dir)) < 0x2000_0000
    && NotPast(dir, MovingEdge(s.pending, dir), cfg.Limit(dir))
    && (Valid(s.hit, cfg.id, {dir}, s.pending) ==> Remembers(cfg, s, dir))
  }

  /** A box whose decorated edges are ints. */
  predicate Spacious(b: Box) {
    && Abs(b.x) < 0x6000_0000 && Abs(b.y) < 0x6000_0000
    && Abs(b.Right()) < 0x6000_0000 && Abs(b.Bottom()) < 0x6000_0000
  }

  lemma EdgesFit(cfg: Setting, b: Box)
    requires cfg.Exact() && Spacious(b)
    ensures IntBorder(EdgesForTarget(cfg.margin, cfg.gap, false, b))
  {
  }

  /** The geometry to search from has the remembered edge, if the cache is valid and its edge leaves a size. */
  lemma EffectiveOrigin(cfg: Setting, hit: Hit, dir: Side, pending: Box)
    requires Roomy(pending) && !pending.Empty()
    requires Valid(hit, cfg.id, {dir}, pending) ==>
               Abs(Recall(hit, dir)) < 0x2000_0000 && !WithEdge(pending, dir, Recall(hit, dir)).Empty()
    ensures var origin := Effective(hit, cfg.id, {dir}, pending, pending);
            && Spacious(origin)
            && MovingEdge(origin, dir) == if Valid(hit, cfg.id, {dir}, pending) then Recall(hit, dir) else MovingEdge(pending, dir)
  {
    match dir {
      case Left =>
      case Right =>
      case Top =>
      case Bottom =>
    }
  }

  lemma WithEdgeFits(b: Box, dir: Side, p: int)
    requires Roomy(b) && Abs(p) < 0x2000_0000
    ensures Spacious(WithEdge(b, dir, p))
  {
  }

  lemma ReadyFolds(cfg: Setting, env: Env, s: State, dir: Side)
    requires Ready(cfg, env, s, dir)
    ensures Foldable(cfg, Effective(s.hit, cfg.id, {dir}, s.pending, s.pending), WithEdge(s.pending, dir, cfg.Limit(dir)))
    ensures MovingEdge(Effective(s.hit, cfg.id, {dir}, s.pending, s.pending), dir) == Origin(cfg, s, dir)
    ensures Abs(Origin(cfg, s, dir)) < 0x4000_0000
  {
    if Valid(s.hit, cfg.id, {dir}, s.pending) {
      RecallFits(cfg, s, dir);
    }
    EffectiveOrigin(cfg, s.hit, dir, s.pending);
    EdgesFit(cfg, Effective(s.hit, cfg.id, {dir}, s.pending, s.pending));
    WithEdgeFits(s.pending, dir, cfg.Limit(dir));
    EdgesFit(cfg, WithEdge(s.pending, dir, cfg.Limit(dir)));
  }

  /** An edge between the window's and the limit leaves a size. */
  lemma RecallFits(cfg: Setting, s: State, dir: Side)
    requires Quiet(s) && Abs(cfg.Limit(dir)) < 0x2000_0000 && Remembers(cfg, s, dir)
    ensures Abs(Recall(s.hit, dir)) < 0x2000_0000 && !WithEdge(s.pending, dir, Recall(s.hit, dir)).Empty()
  {
  }

  /** A client never answers with more than it was asked for, and never with nothing. */
  function AtMost(want: Size, geo: Box): Size
    requires geo.width > 0 && geo.height > 0
  {
    Size(Max(1, Min(want.width, geo.width)), Max(1, Min(want.height, geo.height)))
  }

  /** view_grow_to_edge, and then the answer of the client. */
  function Press(cfg: Setting, env: Env, s: State, dir: Side, offer: nat, want: Size): State {
    if Foldable(cfg, Effective(s.hit, cfg.id, {dir}, s.pending, s.pending), WithEdge(s.pending, dir, cfg.Limit(dir))) then
      var (geo, hit) := Grown(cfg, s.pending, s.hit, dir);
      var s1 := Configured(env, s.(hit := hit), geo, offer);
      if s1.serial > 0 && !geo.Empty() then
        Committed(env, s1, Commit(AtMost(want, geo), AtMost(want, geo), s1.serial, Keep))
      else s1
    else s
  }

  /** The next request in a ready state. */
  lemma RequestIs(cfg: Setting, env: Env, s: State, dir: Side)
    requires Ready(cfg, env, s, dir) && MovingEdge(s.pending, dir) != cfg.Limit(dir)
    requires Foldable(cfg, Effective(s.hit, cfg.id, {dir}, s.pending, s.pending), WithEdge(s.pending, dir, cfg.Limit(dir)))
    ensures var geo := Snapped(cfg, s.pending, s.hit, dir);
            && Grown(cfg, s.pending, s.hit, dir) == (geo, Recorded(cfg.id, {dir}, geo))
            && geo == WithEdge(s.pending, dir, MovingEdge(geo, dir))
            && NextStop(cfg, dir, Origin(cfg, s, dir), MovingEdge(geo, dir))
  {
    ReadyFolds(cfg, env, s, dir);
    SnappedIsNextStop(cfg, s.pending, s.hit, dir);
  }

  /** Growing in direction dir leaves the opposite edge and the near edge of the other axis where they were. */
  predicate Anchored(dir: Side, was: Box, now: Box) {
    match dir
    case Left => now.Right() == was.Right() && now.y == was.y
    case Right => now.x == was.x && now.y == was.y
    case Top => now.Bottom() == was.Bottom() && now.x == was.x
    case Bottom => now.x == was.x && now.y == was.y
  }

  /** The commit of an answer that is not larger than the request keeps the fixed edges and updates the cache. */
  lemma AnswerSettles(cfg: Setting, env: Env, s: State, dir: Side, p: int, offer: nat, want: Size)
    requires env.id == cfg.id && env.initialized && !env.fullscreen && env.grab == {} && offer > 0
    requires Quiet(s) && Abs(p) < 0x2000_0000
    requires !WithEdge(s.pending, dir, p).Empty() && MovingEdge(s.pending, dir) != p
    ensures var geo := WithEdge(s.pending, dir, p);
            var s1 := Configured(env, s.(hit := Recorded(cfg.id, {dir}, geo)), geo, offer);
            var t := Committed(env, s1, Commit(AtMost(want, geo), AtMost(want, geo), s1.serial, Keep));
            && s1.serial == offer
            && Quiet(t)
            && t.hit == Recorded(cfg.id, {dir}, geo).(geom := t.pending, pending := false)
            && NotPast(dir, MovingEdge(t.pending, dir), p)
            && Anchored(dir, s.pending, t.pending)
  {
  }

  /** A window that touches the edge of the output is left alone. */
  lemma PressAtLimit(cfg: Setting, env: Env, s: State, dir: Side, offer: nat, want: Size)
    requires Ready(cfg, env, s, dir) && MovingEdge(s.pending, dir) == cfg.Limit(dir)
    ensures Press(cfg, env, s, dir, offer, want) == s && Origin(cfg, s, dir) == cfg.Limit(dir)
  {
    ReadyFolds(cfg, env, s, dir);
  }

  /** The command with its request at p and the answer to it. */
  function Asked(cfg: Setting, env: Env, s: State, dir: Side, offer: nat, want: Size, p: int): State {
    var geo := WithEdge(s.pending, dir, p);
    var s1 := Configured(env, s.(hit := Recorded(cfg.id, {dir}, geo)), geo, offer);
    if s1.serial > 0 && !geo.Empty() then
      Committed(env, s1, Commit(AtMost(want, geo), AtMost(want, geo), s1.serial, Keep))
    else s1
  }

  lemma PressForm(cfg: Setting, env: Env, s: State, dir: Side, offer: nat, want: Size, p: int)
    requires Foldable(cfg, Effective(s.hit, cfg.id, {dir}, s.pending, s.pending), WithEdge(s.pending, dir, cfg.Limit(dir)))
    requires Grown(cfg, s.pending, s.hit, dir)
          == (WithEdge(s.pending, dir, p), Recorded(cfg.id, {dir}, WithEdge(s.pending, dir, p)))
    ensures Press(cfg, env, s, dir, offer, want) == Asked(cfg, env, s, dir, offer, want, p)
  {
  }

  lemma AskedIsReady(cfg: Setting, env: Env, s: State, dir: Side, offer: nat, want: Size, p: int)
    requires Ready(cfg, env, s, dir) && offer > 0 && MovingEdge(s.pending, dir) != p
    requires NotPast(dir, MovingEdge(s.pending, dir), p) && NotPast(dir, p, cfg.Limit(dir)) && Abs(p) < 0x2000_0000
    ensures var t := Asked(cfg, env, s, dir, offer, want, p);
            && Ready(cfg, env, t, dir) && Remembers(cfg, t, dir) && Origin(cfg, t, dir) == p
            && Anchored(dir, s.pending, t.pending)
  {
    assert !WithEdge(s.pending, dir, p).Empty();
    AnswerSettles(cfg, env, s, dir, p, offer, want);
    var t := Asked(cfg, env, s, dir, offer, want, p);
    assert Recall(t.hit, dir) == p;
    ValidForOneSide(t.hit, cfg.id, dir, t.pending);
  }

  /** Otherwise the remembered edge moves on to the next stop, whatever size the client settles for. */
  lemma PressMovesOn(cfg: Setting, env: Env, s: State, dir: Side, offer: nat, want: Size)
    requires Ready(cfg, env, s, dir) && MovingEdge(s.pending, dir) != cfg.Limit(dir) && offer > 0
    ensures var t := Press(cfg, env, s, dir, offer, want);
            && Ready(cfg, env, t, dir) && Remembers(cfg, t, dir)
            && NextStop(cfg, dir, Origin(cfg, s, dir), Origin(cfg, t, dir))
            && Anchored(dir, s.pending, t.pending)
  {
    ReadyFolds(cfg, env, s, dir);
    RequestIs(cfg, env, s, dir);
    var p := MovingEdge(Snapped(cfg, s.pending, s.hit, dir), dir);
    BetweenIsRoomy(dir, Origin(cfg, s, dir), cfg.Limit(dir), MovingEdge(s.pending, dir), p);
    PressForm(cfg, env, s, dir, offer, want, p);
    AskedIsReady(cfg, env, s, dir, offer, want, p);
  }

  /** A stop lies between the edge of the window and the edge of the output. */
  lemma BetweenIsRoomy(dir: Side, from: int, limit: int, edge: int, p: int)
    requires NotPast(dir, edge, from) && NotPast(dir, from, limit) && edge != limit
    requires if from == limit then p == from else Ahead(p, from, limit)
    ensures NotPast(dir, edge, p) && NotPast(dir, p, limit) && p != edge
  {
  }

  lemma PressAdvances(cfg: Setting, env: Env, s: State, dir: Side, offer: nat, want: Size)
    requires Ready(cfg, env, s, dir) && offer > 0
    ensures var t := Press(cfg, env, s, dir, offer, want);
            && Ready(cfg, env, t, dir) && NextStop(cfg, dir, Origin(cfg, s, dir), Origin(cfg, t, dir))
            && Anchored(dir, s.pending, t.pending)
  {
    if MovingEdge(s.pending, dir) == cfg.Limit(dir) {
      PressAtLimit(cfg, env, s, dir, offer, want);
    } else {
      PressMovesOn(cfg, env, s, dir, offer, want);
    }
  }

  // ---- runs ----

  datatype Try = Try(offer: nat, want: Size)

  predicate Serials(tries: seq<Try>) {
    forall t :: t in tries ==> t.offer > 0
  }

  function Presses(cfg: Setting, env: Env, s: State, dir: Side, tries: seq<Try>): State
    decreases |tries|
  {
    if tries == [] then s else Presses(cfg, env, Press(cfg, env, s, dir, tries[0].offer, tries[0].want), dir, tries[1..])
  }

  /** The edges remembered after each press. */
  function Recalls(cfg: Setting, env: Env, s: State, dir: Side, tries: seq<Try>): seq<int>
    decreases |tries|
  {
    if tries == [] then []
    else
      var t := Press(cfg, env, s, dir, tries[0].offer, tries[0].want);
      [Origin(cfg, t, dir)] + Recalls(cfg, env, t, dir, tries[1..])
  }

  /** How far the remembered edge still is from the edge of the output. */
  function Remaining(cfg: Setting, s: State, dir: Side): nat {
    Abs(cfg.Limit(dir) - Origin(cfg, s, dir))
  }

  /** After n presses. */
  predicate Closer(cfg: Setting, s: State, t: State, dir: Side, n: nat) {
    && Remaining(cfg, t, dir) <= Max(0, Remaining(cfg, s, dir) - n)
    && Anchored(dir, s.pending, t.pending)
  }

  lemma NextStopIsCloser(cfg: Setting, s: State, t: State, dir: Side)
    requires IntRegions(cfg.rs) && IsInt(cfg.gap)
    requires NextStop(cfg, dir, Origin(cfg, s, dir), Origin(cfg, t, dir)) && Anchored(dir, s.pending, t.pending)
    ensures Closer(cfg, s, t, dir, 1)
  {
  }

  lemma CloserAdds(cfg: Setting, s: State, t: State, u: State, dir: Side, n: nat)
    requires Closer(cfg, s, t, dir, 1) && Closer(cfg, t, u, dir, n)
    ensures Closer(cfg, s, u, dir, n + 1)
  {
  }

  /**
   Every press brings the remembered edge strictly closer to the edge of the output until it is there, and
   then it stays there: no sequence of answers, each at most the requested size, keeps it away for longer
   than the initial distance. The opposite edge of the window never moves.
   */
  lemma {:induction false} PressesReachTheEdge(cfg: Setting, env: Env, s: State, dir: Side, tries: seq<Try>)
    requires Ready(cfg, env, s, dir) && Serials(tries)
    ensures var t := Presses(cfg, env, s, dir, tries);
            && Ready(cfg, env, t, dir)
            && Remaining(cfg, t, dir) <= Max(0, Remaining(cfg, s, dir) - |tries|)
            && Anchored(dir, s.pending, t.pending)
    decreases |tries|
  {
    if tries != [] {
      assert tries[0] in tries;
      var t := Press(cfg, env, s, dir, tries[0].offer, tries[0].want);
      PressAdvances(cfg, env, s, dir, tries[0].offer, tries[0].want);
      NextStopIsCloser(cfg, s, t, dir);
      PressesReachTheEdge(cfg, env, t, dir, tries[1..]);
      CloserAdds(cfg, s, t, Presses(cfg, env, t, dir, tries[1..]), dir, |tries| - 1);
    }
  }

  /** On the way no edge of a neighbour is skipped: each one is the remembered edge after some press. */
  lemma {:induction false} NoEdgeIsSkipped(cfg: Setting, env: Env, s: State, dir: Side, tries: seq<Try>, p: int)
    requires Ready(cfg, env, s, dir) && Serials(tries)
    requires GrowStop(cfg, dir, p) && Ahead(p, Origin(cfg, s, dir), cfg.Limit(dir))
    requires Origin(cfg, Presses(cfg, env, s, dir, tries), dir) == cfg.Limit(dir)
    ensures p in Recalls(cfg, env, s, dir, tries)
    decreases |tries|
  {
    if tries != [] {
      assert tries[0] in tries;
      var t := Press(cfg, env, s, dir, tries[0].offer, tries[0].want);
      PressAdvances(cfg, env, s, dir, tries[0].offer, tries[0].want);
      if Origin(cfg, t, dir) != p {
        assert Ahead(p, Origin(cfg, t, dir), cfg.Limit(dir));
        NoEdgeIsSkipped(cfg, env, t, dir, tries[1..], p);
      }
    }
  }
}
