/** Cascading placement of a new window (src/view.c). */
module Cascade {

  import opened Geometry

  /** box_union: the bounding box of two boxes, empty ones ignored. */
  function Union(a: Box, b: Box): Box {
    if a.Empty() then b
    else if b.Empty() then a
    else
      var x, y := Min(a.x, b.x), Min(a.y, b.y);
      Box(x, y, Max(a.Right(), b.Right()) - x, Max(a.Bottom(), b.Bottom()) - y)
  }

  /** The box that stands for the area covered by the first n of the others, where they meet the candidate. */
  function Covered(candidate: Box, others: seq<Box>, n: nat): Box
    requires n <= |others|
  {
    if n == 0 then Box(0, 0, 0, 0)
    else if candidate.Intersects(others[n - 1]) then Union(Covered(candidate, others, n - 1), others[n - 1])
    else Covered(candidate, others, n - 1)
  }

  /** `box` reaches at least as far as every window that counts. */
  predicate Encloses(box: Box, candidate: Box, others: seq<Box>, n: nat)
    requires n <= |others|
  {
    forall j :: 0 <= j < n && candidate.Intersects(others[j]) ==> box.ContainsBox(others[j])
  }

  /** The covered area is the least box around the windows that count; with none of them it is empty. */
  lemma {:induction false} CoveredIsBoundingBox(candidate: Box, others: seq<Box>, n: nat)
    requires n <= |others|
    ensures Encloses(Covered(candidate, others, n), candidate, others, n)
    ensures forall box: Box :: Encloses(box, candidate, others, n) && !Covered(candidate, others, n).Empty() ==>
                          box.ContainsBox(Covered(candidate, others, n))
    ensures Covered(candidate, others, n).Empty() <==> forall j :: 0 <= j < n ==> !candidate.Intersects(others[j])
  {
    if n > 0 {
      CoveredIsBoundingBox(candidate, others, n - 1);
      var before, all := Covered(candidate, others, n - 1), Covered(candidate, others, n);
      forall box: Box | Encloses(box, candidate, others, n) && !all.Empty() ensures box.ContainsBox(all) {
        assert Encloses(box, candidate, others, n - 1);
        assert before.Empty() || box.ContainsBox(before);
        assert candidate.Intersects(others[n - 1]) ==> box.ContainsBox(others[n - 1]);
      }
    }
  }

  /** Window j would be hidden by the candidate, although nothing else covers its top-left corner. */
  predicate Hides(candidate: Box, others: seq<Box>, j: nat)
    requires j < |others|
  {
    candidate.Intersects(others[j]) && candidate.ContainsBox(others[j]) &&
    !Covered(candidate, others, j).ContainsPoint(others[j].x, others[j].y)
  }

  predicate HidesNone(candidate: Box, others: seq<Box>) {
    forall j :: 0 <= j < |others| ==> !Hides(candidate, others, j)
  }

  /** The place below and to the right of a window. */
  function Beside(candidate: Box, other: Box, dx: int, dy: int): Box {
    candidate.(x := other.x + dx, y := other.y + dy)
  }

  /** Window j is the first one, from the top, that the candidate would hide. */
  predicate HidesFirst(candidate: Box, others: seq<Box>, j: nat) {
    j < |others| && Hides(candidate, others, j) && forall k :: 0 <= k < j ==> !Hides(candidate, others, k)
  }

  /** The next place after a candidate that hides something. */
  predicate Shifted(candidate: Box, others: seq<Box>, dx: int, dy: int, next: Box) {
    exists j :: 0 <= j < |others| && HidesFirst(candidate, others, j) && next == Beside(candidate, others[j], dx, dy)
  }

  /** The places tried one after the other: from the centre, each next one inside the usable area. */
  predicate Path(center: Box, usable: Box, others: seq<Box>, dx: int, dy: int, tried: seq<Box>)
    decreases |tried|
  {
    var n := |tried| - 1;
    if n <= 0 then tried == [center]
    else
      && Path(center, usable, others, dx, dy, tried[..n])
      && Shifted(tried[n - 1], others, dx, dy, tried[n]) && usable.ContainsBox(tried[n])
  }

  /** The place next in turn does not fit the usable area. */
  predicate LeadsOut(candidate: Box, usable: Box, others: seq<Box>, dx: int, dy: int) {
    exists j :: 0 <= j < |others| && HidesFirst(candidate, others, j)
                && !usable.ContainsBox(Beside(candidate, others[j], dx, dy))
  }

  /** The scan of the windows from top to bottom: the first one the candidate would hide. */
  method FirstHidden(candidate: Box, others: seq<Box>, minimized: bool) returns (j: nat)
    ensures j <= |others| && (minimized ==> j == |others|)
    ensures j < |others| ==> HidesFirst(candidate, others, j)
    ensures !minimized && j == |others| ==> HidesNone(candidate, others)
  {
    var covered := Box(0, 0, 0, 0);
    j := 0;
    while j < |others|
      invariant 0 <= j <= |others|
      invariant !minimized ==> covered == Covered(candidate, others, j)
      invariant !minimized ==> forall k :: 0 <= k < j ==> !Hides(candidate, others, k)
    {
      var other := others[j];
      if !minimized && candidate.Intersects(other) {
        if candidate.ContainsBox(other) && !covered.ContainsPoint(other.x, other.y) {
          return;
        }
        covered := Union(covered, other);
      }
      j := j + 1;
    }
  }

  /** What every kept candidate satisfies after `moves` shifts. */
  predicate Kept(center: Box, usable: Box, dx: int, dy: int, candidate: Box, moves: nat) {
    && candidate.width == center.width && candidate.height == center.height
    && (moves == 0 ==> candidate == center)
    && (moves > 0 ==>
          && usable.ContainsBox(candidate)
          && candidate.x >= center.x + dx && candidate.y >= center.y + dy
          && (moves - 1) * dx + usable.x <= candidate.x)
  }

  lemma KeptMoves(center: Box, usable: Box, others: seq<Box>, dx: int, dy: int, candidate: Box, moves: nat, j: nat)
    requires dx > 0 && dy > 0 && Kept(center, usable, dx, dy, candidate, moves)
    requires j < |others| && Hides(candidate, others, j)
    ensures var next := Beside(candidate, others[j], dx, dy);
            next.x >= candidate.x + dx && next.y >= candidate.y + dy
            && (usable.ContainsBox(next) ==> Kept(center, usable, dx, dy, next, moves + 1))
  {
    assert moves * dx == (if moves > 0 then (moves - 1) * dx + dx else 0);
  }

  /** Every place on the path is kept, so a path has at most as many shifts as offsets fit the usable width. */
  lemma {:induction false} PathIsKept(center: Box, usable: Box, others: seq<Box>, dx: int, dy: int, tried: seq<Box>)
    requires dx > 0 && dy > 0 && Path(center, usable, others, dx, dy, tried)
    ensures Kept(center, usable, dx, dy, tried[|tried| - 1], |tried| - 1)
    ensures |tried| > 1 ==> (|tried| - 2) * dx + center.width <= usable.width
    decreases |tried|
  {
    var n := |tried| - 1;
    if n > 0 {
      PathIsKept(center, usable, others, dx, dy, tried[..n]);
      ShiftKeeps(center, usable, others, dx, dy, tried[n - 1], tried[n], n - 1);
    }
  }

  lemma ShiftKeeps(center: Box, usable: Box, others: seq<Box>, dx: int, dy: int, candidate: Box, next: Box, moves: nat)
    requires dx > 0 && dy > 0 && Kept(center, usable, dx, dy, candidate, moves)
    requires Shifted(candidate, others, dx, dy, next) && usable.ContainsBox(next)
    ensures Kept(center, usable, dx, dy, next, moves + 1) && moves * dx + center.width <= usable.width
  {
    var j :| 0 <= j < |others| && HidesFirst(candidate, others, j) && next == Beside(candidate, others[j], dx, dy);
    KeptMoves(center, usable, others, dx, dy, candidate, moves, j);
  }

  lemma PathGrows(center: Box, usable: Box, others: seq<Box>, dx: int, dy: int, tried: seq<Box>, next: Box)
    requires Path(center, usable, others, dx, dy, tried)
    requires Shifted(tried[|tried| - 1], others, dx, dy, next) && usable.ContainsBox(next)
    ensures Path(center, usable, others, dx, dy, tried + [next])
  {
    var longer := tried + [next];
    assert longer[..|longer| - 1] == tried;
  }

  /**
   * The loop of view_compute_cascaded_position, on decorated boxes. `others` are
   * the windows of the current workspace from top to bottom, the new one left
   * out; `minimized` is the new window's own state. `tried` is the path of the
   * places that were kept.
   */
  method Settle(center: Box, usable: Box, others: seq<Box>, minimized: bool, dx: int, dy: int)
    returns (candidate: Box, ghost tried: seq<Box>)
    requires dx > 0 && dy > 0
    ensures minimized ==> candidate == center
    ensures !minimized ==>
              && Path(center, usable, others, dx, dy, tried)
              && var last := tried[|tried| - 1];
                 if HidesNone(last, others) then candidate == last
                 else candidate == center && LeadsOut(last, usable, others, dx, dy)
  {
    candidate, tried := center, [center];
    while true
      invariant Path(center, usable, others, dx, dy, tried) && candidate == tried[|tried| - 1]
      invariant minimized ==> candidate == center
      decreases Max(0, usable.width) + 2 - |tried|
    {
      PathIsShort(center, usable, others, dx, dy, tried);
      var j := FirstHidden(candidate, others, minimized);
      if j == |others| {
        return;
      }
      var next := candidate.(x := others[j].x + dx, y := others[j].y + dy);
      if !usable.ContainsBox(next) {
        candidate := center;
        return;
      }
      assert Shifted(candidate, others, dx, dy, next);
      PathGrows(center, usable, others, dx, dy, tried, next);
      candidate, tried := next, tried + [next];
    }
  }

  lemma PathIsShort(center: Box, usable: Box, others: seq<Box>, dx: int, dy: int, tried: seq<Box>)
    requires dx > 0 && dy > 0 && Path(center, usable, others, dx, dy, tried)
    ensures |tried| <= Max(0, usable.width) + 1
  {
    PathIsKept(center, usable, others, dx, dy, tried);
    if |tried| > 1 {
      AtLeast(|tried| - 2, dx);
    }
  }

  lemma AtLeast(a: nat, b: int)
    requires b > 0
    ensures a * b >= a
  {
  }

  /** What a path and its end say about the place that was chosen. */
  lemma SettledPlace(center: Box, usable: Box, others: seq<Box>, dx: int, dy: int, tried: seq<Box>, candidate: Box)
    requires dx > 0 && dy > 0 && Path(center, usable, others, dx, dy, tried)
    requires candidate == tried[|tried| - 1] || candidate == center
    ensures candidate.width == center.width && candidate.height == center.height
    ensures candidate != center ==>
              usable.ContainsBox(candidate) && candidate.x >= center.x + dx && candidate.y >= center.y + dy
  {
    PathIsKept(center, usable, others, dx, dy, tried);
  }

  /** The place that is chosen depends on nothing but the centre, the area and the windows. */
  lemma {:induction false} PathIsUnique(center: Box, usable: Box, others: seq<Box>, dx: int, dy: int, a: seq<Box>, b: seq<Box>)
    requires Path(center, usable, others, dx, dy, a) && Path(center, usable, others, dx, dy, b) && |a| <= |b|
    ensures a == b[..|a|]
    decreases |b|
  {
    if |a| < |b| {
      PathIsUnique(center, usable, others, dx, dy, a, b[..|b| - 1]);
      assert b[..|b| - 1][..|a|] == b[..|a|];
    } else {
      SameLength(center, usable, others, dx, dy, a, b);
    }
  }

  lemma {:induction false} SameLength(center: Box, usable: Box, others: seq<Box>, dx: int, dy: int, a: seq<Box>, b: seq<Box>)
    requires Path(center, usable, others, dx, dy, a) && Path(center, usable, others, dx, dy, b) && |a| == |b|
    ensures a == b
    decreases |a|
  {
    var n := |a| - 1;
    if n > 0 {
      SameLength(center, usable, others, dx, dy, a[..n], b[..n]);
      assert a[n - 1] == a[..n][n - 1] == b[..n][n - 1] == b[n - 1];
      SameFirst(a[n - 1], others, dx, dy, a[n], b[n]);
      assert a == a[..n] + [a[n]] && b == b[..n] + [b[n]];
    }
  }

  lemma SameFirst(c: Box, others: seq<Box>, dx: int, dy: int, p: Box, q: Box)
    requires Shifted(c, others, dx, dy, p) && Shifted(c, others, dx, dy, q)
    ensures p == q
  {
    var j :| 0 <= j < |others| && HidesFirst(c, others, j) && p == Beside(c, others[j], dx, dy);
    var k :| 0 <= k < |others| && HidesFirst(c, others, k) && q == Beside(c, others[k], dx, dy);
    assert !(j < k) && !(k < j);
  }
}
