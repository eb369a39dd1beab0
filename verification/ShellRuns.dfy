/** What every run of the configure protocol keeps (src/xdg.c, src/view-impl-common.c). */
module ShellRuns {
  import opened Geometry
  import opened Edges
  import opened SnapConstraints
  import opened XdgShell

  /** Everything that can happen to a mapped view; Notify is any other request that carries a serial. */
  datatype Event = Configure(geo: Box, offer: nat) | Notify(serial: nat) | CommitEvent(commit: Commit) | Timeout

  /** wlroots never hands out serial 0, and a timer only fires while it is armed. */
  predicate Enabled(s: State, e: Event) {
    match e
    case Configure(_, offer) => offer > 0
    case Notify(serial) => serial > 0
    case CommitEvent(c) => c.initial.Place? ==> c.initial.offer > 0
    case Timeout => s.timer
  }

  function Step(env: Env, s: State, e: Event): State {
    match e
    case Configure(geo, offer) => Configured(env, s, geo, offer)
    case Notify(serial) => Outstanding(s, serial)
    case CommitEvent(c) => Committed(env, s, c)
    case Timeout => TimedOut(env, s)
  }

  /** An event, and what it finds around the view: grab, fullscreen state and output may differ from event to event. */
  datatype Moment = Moment(env: Env, event: Event)

  function After(s: State, m: Moment): State {
    Step(m.env, s, m.event)
  }

  /** Each event of the run is enabled when it happens. */
  predicate Possible(s: State, ms: seq<Moment>)
    decreases |ms|
  {
    ms != [] ==> Enabled(s, ms[0].event) && Possible(After(s, ms[0]), ms[1..])
  }

  function Run(s: State, ms: seq<Moment>): State
    decreases |ms|
  {
    if ms == [] then s else Run(After(s, ms[0]), ms[1..])
  }

  /** The client has been configured once, and the view is mapped. */
  predicate Live(env: Env) {
    env.initialized && env.mapped
  }

  // ---- timer and agreement ----

  lemma ConfigureKeeps(env: Env, s: State, geo: Box, offer: nat)
    requires env.initialized && offer > 0 && s.TimerOk() && s.Synced()
    ensures var t := Configured(env, s, geo, offer); t.TimerOk() && t.Synced()
  {
  }

  lemma CommitKeeps(env: Env, s: State, c: Commit)
    requires env.initialized && (c.initial.Place? ==> c.initial.offer > 0) && s.TimerOk() && s.Synced()
    ensures var t := Committed(env, s, c); t.TimerOk() && t.Synced()
  {
    assert BeforeApply(env, s, c).TimerOk();
  }

  lemma TimeoutKeeps(env: Env, s: State)
    requires env.mapped
    ensures var t := TimedOut(env, s); t.TimerOk() && t.Synced()
  {
  }

  lemma StepKeeps(env: Env, s: State, e: Event)
    requires Live(env) && Enabled(s, e) && s.TimerOk() && s.Synced()
    ensures Step(env, s, e).TimerOk() && Step(env, s, e).Synced()
  {
    match e {
      case Configure(geo, offer) => ConfigureKeeps(env, s, geo, offer);
      case Notify(serial) =>
      case CommitEvent(c) => CommitKeeps(env, s, c);
      case Timeout => TimeoutKeeps(env, s);
    }
  }

  /**
   Over every run of requests, commits of any size with any acknowledged serial, and timeouts, the timer
   is armed exactly while a request is outstanding; and with nothing outstanding the requested geometry is
   the actual one or the empty request that lets the client choose.
   */
  lemma {:induction false} RunsStaySynced(s: State, ms: seq<Moment>)
    requires forall m <- ms :: Live(m.env)
    requires s.TimerOk() && s.Synced() && Possible(s, ms)
    ensures Run(s, ms).TimerOk() && Run(s, ms).Synced()
    decreases |ms|
  {
    if ms != [] {
      assert ms[0] in ms;
      StepKeeps(ms[0].env, s, ms[0].event);
      RunsStaySynced(After(s, ms[0]), ms[1..]);
    }
  }

  // ---- the edge opposite to the one being dragged ----

  /** A commit never leaves a mapped view without a size. */
  predicate Sized(e: Event) {
    e.CommitEvent? ==> e.commit.size.width > 0 && e.commit.size.height > 0
  }

  /** Both geometries have a size. */
  predicate HasSize(s: State) {
    !s.pending.Empty() && !s.current.Empty()
  }

  predicate RightAgrees(s: State) {
    HasSize(s) && s.current.Right() == s.pending.Right()
  }

  predicate BottomAgrees(s: State) {
    HasSize(s) && s.current.Bottom() == s.pending.Bottom()
  }

  /**
   An event during a drag of the left edge. Every request of the pointer has its right edge at r, where the
   window had it when the button was pressed, whatever has happened since.
   */
  predicate LeftDrag(s: State, m: Moment, r: int) {
    && Live(m.env) && !m.env.fullscreen && Left in m.env.grab
    && Enabled(s, m.event) && Sized(m.event)
    && (m.event.Configure? ==> !m.event.geo.Empty() && m.event.geo.Right() == r)
  }

  predicate TopDrag(s: State, m: Moment, b: int) {
    && Live(m.env) && !m.env.fullscreen && Top in m.env.grab
    && Enabled(s, m.event) && Sized(m.event)
    && (m.event.Configure? ==> !m.event.geo.Empty() && m.event.geo.Bottom() == b)
  }

  predicate LeftDragRun(s: State, ms: seq<Moment>, r: int)
    decreases |ms|
  {
    ms != [] ==> LeftDrag(s, ms[0], r) && LeftDragRun(After(s, ms[0]), ms[1..], r)
  }

  predicate TopDragRun(s: State, ms: seq<Moment>, b: int)
    decreases |ms|
  {
    ms != [] ==> TopDrag(s, ms[0], b) && TopDragRun(After(s, ms[0]), ms[1..], b)
  }

  /** What every event of a drag keeps, wherever the edges are. */
  predicate Steady(s: State) {
    HasSize(s) && s.TimerOk() && s.Synced()
  }

  lemma LeftDragKeeps(s: State, m: Moment, r: int)
    requires LeftDrag(s, m, r) && Steady(s)
    ensures Steady(After(s, m))
  {
    StepKeeps(m.env, s, m.event);
  }

  lemma TopDragKeeps(s: State, m: Moment, b: int)
    requires TopDrag(s, m, b) && Steady(s)
    ensures Steady(After(s, m))
  {
    StepKeeps(m.env, s, m.event);
  }

  // ---- one event ----

  /** A timeout moves the anchored edge exactly if the client still has another size than the request. */
  lemma TimeoutKeepsRightIff(env: Env, s: State)
    requires env.mapped && !env.fullscreen && RightAgrees(s)
    ensures TimedOut(env, s).current.Right() == s.current.Right() <==> s.pending.width == s.current.width
  {
  }

  lemma TimeoutKeepsBottomIff(env: Env, s: State)
    requires env.mapped && !env.fullscreen && BottomAgrees(s)
    ensures TimedOut(env, s).current.Bottom() == s.current.Bottom() <==> s.pending.height == s.current.height
  {
  }

  /** The request is taken over at once: nothing is outstanding and it has the size that was requested last. */
  predicate Immediate(s: State, geo: Box) {
    s.serial == 0 && geo.width == s.pending.width && geo.height == s.pending.height
  }

  /** A request leaves the window on its right edge exactly if the window is there already or moves there at once. */
  lemma RequestAgreesIff(s: State, m: Moment, r: int)
    requires LeftDrag(s, m, r) && m.event.Configure? && Steady(s)
    ensures RightAgrees(After(s, m)) <==> s.current.Right() == r || Immediate(s, m.event.geo)
  {
  }

  lemma RequestAgreesBelowIff(s: State, m: Moment, b: int)
    requires TopDrag(s, m, b) && m.event.Configure? && Steady(s)
    ensures BottomAgrees(After(s, m)) <==> s.current.Bottom() == b || Immediate(s, m.event.geo)
  {
  }

  /** The commit is news: it acknowledges the outstanding request or has another size than the window. */
  predicate News(s: State, c: Commit) {
    (s.serial > 0 && s.serial == c.acked) || TrueSize(s.pending, c) != Size(s.current.width, s.current.height)
  }

  /** A commit leaves the window on the requested right edge exactly if it was there, or the commit is news. */
  lemma CommitAgreesIff(env: Env, s: State, c: Commit)
    requires !env.fullscreen && Left in env.grab && HasSize(s) && c.size.width > 0 && c.size.height > 0
    ensures RightAgrees(Committed(env, s, c)) <==> RightAgrees(s) || News(s, c)
    ensures Committed(env, s, c).pending.Right() == s.pending.Right()
  {
  }

  lemma CommitAgreesBelowIff(env: Env, s: State, c: Commit)
    requires !env.fullscreen && Top in env.grab && HasSize(s) && c.size.width > 0 && c.size.height > 0
    ensures BottomAgrees(Committed(env, s, c)) <==> BottomAgrees(s) || News(s, c)
    ensures Committed(env, s, c).pending.Bottom() == s.pending.Bottom()
  {
  }

  // ---- whole drags ----

  /** The window is on the requested right edge in every state of the run. */
  predicate AlwaysRightAgrees(s: State, ms: seq<Moment>)
    decreases |ms|
  {
    RightAgrees(s) && (ms != [] ==> AlwaysRightAgrees(After(s, ms[0]), ms[1..]))
  }

  predicate AlwaysBottomAgrees(s: State, ms: seq<Moment>)
    decreases |ms|
  {
    BottomAgrees(s) && (ms != [] ==> AlwaysBottomAgrees(After(s, ms[0]), ms[1..]))
  }

  /** Every request finds the window at r, or moves it there at once. */
  predicate RequestsFindRight(s: State, ms: seq<Moment>, r: int)
    decreases |ms|
  {
    ms != [] ==>
      && (ms[0].event.Configure? ==> s.current.Right() == r || Immediate(s, ms[0].event.geo))
      && RequestsFindRight(After(s, ms[0]), ms[1..], r)
  }

  predicate RequestsFindBottom(s: State, ms: seq<Moment>, b: int)
    decreases |ms|
  {
    ms != [] ==>
      && (ms[0].event.Configure? ==> s.current.Bottom() == b || Immediate(s, ms[0].event.geo))
      && RequestsFindBottom(After(s, ms[0]), ms[1..], b)
  }

  /** Commits, notifications and timeouts keep the window on the requested edge; so do requests that find it there. */
  lemma RightAgreesAfterIff(s: State, m: Moment, r: int)
    requires LeftDrag(s, m, r) && Steady(s) && RightAgrees(s)
    ensures RightAgrees(After(s, m)) <==>
              (m.event.Configure? ==> s.current.Right() == r || Immediate(s, m.event.geo))
  {
    match m.event
    case Configure(_, _) => RequestAgreesIff(s, m, r);
    case CommitEvent(c) => CommitAgreesIff(m.env, s, c);
    case _ =>
  }

  lemma BottomAgreesAfterIff(s: State, m: Moment, b: int)
    requires TopDrag(s, m, b) && Steady(s) && BottomAgrees(s)
    ensures BottomAgrees(After(s, m)) <==>
              (m.event.Configure? ==> s.current.Bottom() == b || Immediate(s, m.event.geo))
  {
    match m.event
    case Configure(_, _) => RequestAgreesBelowIff(s, m, b);
    case CommitEvent(c) => CommitAgreesBelowIff(m.env, s, c);
    case _ =>
  }

  /**
   Over a whole drag of the left edge, with timeouts, the window is always on the requested right edge if and
   only if every request finds it at the anchor r or moves it there at once.
   */
  lemma {:induction false} LeftDragAnchorsIff(s: State, ms: seq<Moment>, r: int)
    requires LeftDragRun(s, ms, r) && Steady(s) && RightAgrees(s)
    ensures AlwaysRightAgrees(s, ms) <==> RequestsFindRight(s, ms, r)
    decreases |ms|
  {
    if ms != [] {
      LeftDragKeeps(s, ms[0], r);
      RightAgreesAfterIff(s, ms[0], r);
      if RightAgrees(After(s, ms[0])) {
        LeftDragAnchorsIff(After(s, ms[0]), ms[1..], r);
      }
    }
  }

  lemma {:induction false} TopDragAnchorsIff(s: State, ms: seq<Moment>, b: int)
    requires TopDragRun(s, ms, b) && Steady(s) && BottomAgrees(s)
    ensures AlwaysBottomAgrees(s, ms) <==> RequestsFindBottom(s, ms, b)
    decreases |ms|
  {
    if ms != [] {
      TopDragKeeps(s, ms[0], b);
      BottomAgreesAfterIff(s, ms[0], b);
      if BottomAgrees(After(s, ms[0])) {
        TopDragAnchorsIff(After(s, ms[0]), ms[1..], b);
      }
    }
  }

  /** The right edge is at r in every state of the run. */
  predicate AlwaysRightAt(s: State, ms: seq<Moment>, r: int)
    decreases |ms|
  {
    s.current.Right() == r && (ms != [] ==> AlwaysRightAt(After(s, ms[0]), ms[1..], r))
  }

  predicate AlwaysBottomAt(s: State, ms: seq<Moment>, b: int)
    decreases |ms|
  {
    s.current.Bottom() == b && (ms != [] ==> AlwaysBottomAt(After(s, ms[0]), ms[1..], b))
  }

  /** No timeout gives up a request of another width. */
  predicate WidthsMetInTime(s: State, ms: seq<Moment>)
    decreases |ms|
  {
    ms != [] ==>
      && (ms[0].event.Timeout? ==> s.pending.width == s.current.width)
      && WidthsMetInTime(After(s, ms[0]), ms[1..])
  }

  predicate HeightsMetInTime(s: State, ms: seq<Moment>)
    decreases |ms|
  {
    ms != [] ==>
      && (ms[0].event.Timeout? ==> s.pending.height == s.current.height)
      && HeightsMetInTime(After(s, ms[0]), ms[1..])
  }

  /** Both geometries have their right edge at r. */
  predicate RightAt(s: State, r: int) {
    s.current.Right() == r && s.pending.Right() == r
  }

  predicate BottomAt(s: State, b: int) {
    s.current.Bottom() == b && s.pending.Bottom() == b
  }

  lemma RightStaysIff(s: State, m: Moment, r: int)
    requires LeftDrag(s, m, r) && Steady(s) && RightAt(s, r)
    ensures RightAt(After(s, m), r) <==> (m.event.Timeout? ==> s.pending.width == s.current.width)
    ensures After(s, m).current.Right() == r <==> RightAt(After(s, m), r)
  {
  }

  lemma BottomStaysIff(s: State, m: Moment, b: int)
    requires TopDrag(s, m, b) && Steady(s) && BottomAt(s, b)
    ensures BottomAt(After(s, m), b) <==> (m.event.Timeout? ==> s.pending.height == s.current.height)
    ensures After(s, m).current.Bottom() == b <==> BottomAt(After(s, m), b)
  {
  }

  /**
   Over a whole drag of the left edge, with everything that still happens after a timeout, the right edge
   never leaves the anchor r if and only if no timeout gives up a width.
   */
  lemma {:induction false} LeftDragPinsRightIff(s: State, ms: seq<Moment>, r: int)
    requires LeftDragRun(s, ms, r) && Steady(s) && RightAt(s, r)
    ensures AlwaysRightAt(s, ms, r) <==> WidthsMetInTime(s, ms)
    decreases |ms|
  {
    if ms != [] {
      LeftDragKeeps(s, ms[0], r);
      RightStaysIff(s, ms[0], r);
      if RightAt(After(s, ms[0]), r) {
        LeftDragPinsRightIff(After(s, ms[0]), ms[1..], r);
      }
    }
  }

  lemma {:induction false} TopDragPinsBottomIff(s: State, ms: seq<Moment>, b: int)
    requires TopDragRun(s, ms, b) && Steady(s) && BottomAt(s, b)
    ensures AlwaysBottomAt(s, ms, b) <==> HeightsMetInTime(s, ms)
    decreases |ms|
  {
    if ms != [] {
      TopDragKeeps(s, ms[0], b);
      BottomStaysIff(s, ms[0], b);
      if BottomAt(After(s, ms[0]), b) {
        TopDragPinsBottomIff(After(s, ms[0]), ms[1..], b);
      }
    }
  }

  // ---- after a timeout ----

  /** The event takes the window to the requested right or bottom edge. */
  predicate Settles(s: State, m: Moment) {
    (m.event.Configure? && Immediate(s, m.event.geo)) || (m.event.CommitEvent? && News(s, m.event.commit))
  }

  predicate SomethingSettles(s: State, ms: seq<Moment>)
    decreases |ms|
  {
    ms != [] && (Settles(s, ms[0]) || SomethingSettles(After(s, ms[0]), ms[1..]))
  }

  predicate NoTimeout(ms: seq<Moment>) {
    forall m <- ms :: !m.event.Timeout?
  }

  lemma RightSettlesIff(s: State, m: Moment, r: int)
    requires LeftDrag(s, m, r) && Steady(s) && s.pending.Right() == r && !m.event.Timeout?
    ensures After(s, m).pending.Right() == r
    ensures After(s, m).current.Right() == r <==> s.current.Right() == r || Settles(s, m)
  {
    if m.event.CommitEvent? {
      CommitAgreesIff(m.env, s, m.event.commit);
    }
  }

  lemma BottomSettlesIff(s: State, m: Moment, b: int)
    requires TopDrag(s, m, b) && Steady(s) && s.pending.Bottom() == b && !m.event.Timeout?
    ensures After(s, m).pending.Bottom() == b
    ensures After(s, m).current.Bottom() == b <==> s.current.Bottom() == b || Settles(s, m)
  {
    if m.event.CommitEvent? {
      CommitAgreesBelowIff(m.env, s, m.event.commit);
    }
  }

  /**
   Wherever a timeout has left the window, once the pointer has made its next request the right edge returns
   to the anchor exactly with the first commit that acknowledges a request or brings another size, or with a
   request that is taken over at once.
   */
  lemma {:induction false} LeftDragReturnsIff(s: State, ms: seq<Moment>, r: int)
    requires LeftDragRun(s, ms, r) && Steady(s) && s.pending.Right() == r && NoTimeout(ms)
    ensures Run(s, ms).pending.Right() == r
    ensures Run(s, ms).current.Right() == r <==> s.current.Right() == r || SomethingSettles(s, ms)
    decreases |ms|
  {
    if ms != [] {
      assert ms[0] in ms;
      LeftDragKeeps(s, ms[0], r);
      RightSettlesIff(s, ms[0], r);
      LeftDragReturnsIff(After(s, ms[0]), ms[1..], r);
    }
  }

  lemma {:induction false} TopDragReturnsIff(s: State, ms: seq<Moment>, b: int)
    requires TopDragRun(s, ms, b) && Steady(s) && s.pending.Bottom() == b && NoTimeout(ms)
    ensures Run(s, ms).pending.Bottom() == b
    ensures Run(s, ms).current.Bottom() == b <==> s.current.Bottom() == b || SomethingSettles(s, ms)
    decreases |ms|
  {
    if ms != [] {
      assert ms[0] in ms;
      TopDragKeeps(s, ms[0], b);
      BottomSettlesIff(s, ms[0], b);
      TopDragReturnsIff(After(s, ms[0]), ms[1..], b);
    }
  }

  /** The surroundings of a plain drag of the left edge. */
  const DRAGGED: Env := Env(0, {Left}, false, Output(0, true, Box(0, 0, 1000, 1000)), Box(0, 0, 1000, 1000), true, true)

  const AT_REST: State := State(Box(0, 0, 100, 100), Box(0, 0, 100, 100), 0, false, NO_HIT)

  /** A slow client: the first request times out, and a late commit follows the second. */
  const SLOW_CLIENT: seq<Moment> := [
    Moment(DRAGGED, Configure(Box(-50, 0, 150, 100), 1)),
    Moment(DRAGGED, Timeout),
    Moment(DRAGGED, Configure(Box(-60, 0, 160, 100), 2)),
    Moment(DRAGGED, CommitEvent(Commit(Size(100, 100), Size(100, 100), 0, Keep)))
  ]

  lemma DragOn(s: State, m: Moment, ms: seq<Moment>, rest: seq<Moment>, r: int)
    requires ms == [m] + rest && LeftDrag(s, m, r) && LeftDragRun(After(s, m), rest, r)
    ensures LeftDragRun(s, ms, r) && Run(s, ms) == Run(After(s, m), rest)
  {
    assert ms[0] == m && ms[1..] == rest;
  }

  /** All requests have their right edge at 100, and the window ends with its own at 50. */
  lemma SlowClientLeavesEdge()
    ensures LeftDragRun(AT_REST, SLOW_CLIENT, 100) && Steady(AT_REST) && RightAt(AT_REST, 100)
    ensures Run(AT_REST, SLOW_CLIENT).current.Right() == 50 && Run(AT_REST, SLOW_CLIENT).pending.Right() == 100
  {
    var a, b, c, d := SLOW_CLIENT[0], SLOW_CLIENT[1], SLOW_CLIENT[2], SLOW_CLIENT[3];
    var s1 := After(AT_REST, a);
    var s2 := After(s1, b);
    assert s2 == State(Box(-50, 0, 100, 100), Box(-50, 0, 100, 100), 0, false, NO_HIT);
    var s3 := After(s2, c);
    assert s3 == State(Box(-60, 0, 160, 100), Box(-50, 0, 100, 100), 2, true, NO_HIT);
    assert After(s3, d) == s3;
    DragOn(s3, d, [d], [], 100);
    DragOn(s2, c, [c, d], [d], 100);
    DragOn(s1, b, [b, c, d], [c, d], 100);
    DragOn(AT_REST, a, SLOW_CLIENT, [b, c, d], 100);
  }

  /**
   After the button is released the heuristic decides. It keeps the right edge in place for exactly those
   commits that arrive while the requested position still differs, or that have the requested width.
   */
  lemma LateCommitKeepsRightIff(env: Env, s: State, c: Commit)
    requires !env.fullscreen && Left !in env.grab
    requires !s.pending.Empty() && s.current.Right() == s.pending.Right()
    ensures Committed(env, s, c).current.Right() == s.current.Right() <==>
              s.current.x != s.pending.x || TrueSize(s.pending, c).width == s.pending.width
  {
  }

  lemma LateCommitKeepsBottomIff(env: Env, s: State, c: Commit)
    requires !env.fullscreen && Top !in env.grab
    requires !s.pending.Empty() && s.current.Bottom() == s.pending.Bottom()
    ensures Committed(env, s, c).current.Bottom() == s.current.Bottom() <==>
              s.current.y != s.pending.y || TrueSize(s.pending, c).height == s.pending.height
  {
  }

  // ---- late answers ----

  datatype Answer = Answer(env: Env, commit: Commit)

  function Commits(s: State, cs: seq<Answer>): State
    decreases |cs|
  {
    if cs == [] then s else Commits(Committed(cs[0].env, s, cs[0].commit), cs[1..])
  }

  lemma {:induction false} StaleCommitsKeepRequest(s: State, cs: seq<Answer>)
    requires s.serial > 0 && !s.pending.Empty()
    requires forall c <- cs :: !c.env.fullscreen && c.commit.acked != s.serial
    ensures var t := Commits(s, cs); t.pending == s.pending && t.serial == s.serial && t.timer == s.timer && t.hit == s.hit
    decreases |cs|
  {
    if cs != [] {
      assert cs[0] in cs;
      StaleCommitsKeepRequest(Committed(cs[0].env, s, cs[0].commit), cs[1..]);
    }
  }

  /**
   A client that finally acknowledges a request with the requested size ends up with exactly the requested
   box, however many commits of other sizes and serials came in between.
   */
  lemma RequestIsHonoured(env: Env, s: State, geo: Box, offer: nat, late: seq<Answer>, answer: Answer)
    requires env.initialized && !answer.env.fullscreen && offer > 0 && !geo.Empty()
    requires geo.width != s.pending.width || geo.height != s.pending.height
    requires forall c <- late :: !c.env.fullscreen && c.commit.acked != offer
    requires answer.commit.acked == offer && answer.commit.size == Size(geo.width, geo.height)
    ensures var t := Committed(answer.env, Commits(Configured(env, s, geo, offer), late), answer.commit);
            t.pending == geo && t.current == geo && t.serial == 0 && !t.timer
  {
    StaleCommitsKeepRequest(Configured(env, s, geo, offer), late);
  }
}
