/** What the predicates on boxes mean, pixel by pixel, and with them cascading (src/common/box.c, src/view.c). */
module Pixels {

  import opened Geometry
  import opened Cascade

  /** The pixel is one of the box's. */
  predicate In(b: Box, px: int, py: int) {
    b.x <= px < b.x + b.width && b.y <= py < b.y + b.height
  }

  ghost predicate InBoth(a: Box, b: Box, px: int, py: int) {
    In(a, px, py) && In(b, px, py)
  }

  lemma EmptyIff(b: Box)
    ensures b.Empty() <==> forall px, py :: !In(b, px, py)
  {
    if !b.Empty() {
      assert In(b, b.x, b.y);
    }
  }

  lemma ContainsPointIff(b: Box, px: int, py: int)
    ensures b.ContainsPoint(px, py) <==> In(b, px, py)
  {
  }

  /** Two boxes intersect exactly if they share a pixel. */
  lemma IntersectsIff(a: Box, b: Box)
    ensures a.Intersects(b) <==> exists px, py :: InBoth(a, b, px, py)
  {
    if a.Intersects(b) {
      assert InBoth(a, b, Max(a.x, b.x), Max(a.y, b.y));
    }
  }

  /** One contains the other exactly if that has a pixel and all of its pixels are in it. */
  lemma ContainsBoxIff(a: Box, b: Box)
    ensures a.ContainsBox(b) <==> !b.Empty() && forall px, py :: In(b, px, py) ==> In(a, px, py)
  {
    if !b.Empty() && forall px, py :: In(b, px, py) ==> In(a, px, py) {
      assert In(b, b.x, b.y) && In(b, b.Right() - 1, b.Bottom() - 1);
    }
  }

  // ---- cascading ----

  /** Some box around the windows above j that the candidate meets leaves the corner of j free. */
  ghost predicate CornerFree(candidate: Box, others: seq<Box>, j: nat)
    requires j < |others|
  {
    exists box: Box :: Encloses(box, candidate, others, j) && !In(box, others[j].x, others[j].y)
  }

  /** The candidate hides a window exactly if it covers all of its pixels, and what is above the window does not reach round its corner. */
  lemma HidesIff(candidate: Box, others: seq<Box>, j: nat)
    requires j < |others|
    ensures Hides(candidate, others, j) <==>
              && !others[j].Empty() && (forall px, py :: In(others[j], px, py) ==> In(candidate, px, py))
              && CornerFree(candidate, others, j)
  {
    var covered, other := Covered(candidate, others, j), others[j];
    ContainsBoxIff(candidate, other);
    CoveredIsBoundingBox(candidate, others, j);
    if covered.ContainsPoint(other.x, other.y) {
      forall box: Box | Encloses(box, candidate, others, j) ensures In(box, other.x, other.y) {
        assert box.ContainsBox(covered);
      }
    } else {
      assert Encloses(covered, candidate, others, j) && !In(covered, other.x, other.y);
    }
  }

  /** Some window is the topmost that the candidate hides, and `next` has the candidate's size and its corner off that window's by the offsets. */
  lemma ShiftedIff(candidate: Box, others: seq<Box>, dx: int, dy: int, next: Box)
    ensures Shifted(candidate, others, dx, dy, next) <==>
              exists j: nat :: HidesFirst(candidate, others, j) && next.width == candidate.width && next.height == candidate.height
                               && next.x - others[j].x == dx && next.y - others[j].y == dy
  {
  }

  /** The search gives up exactly where the place next in turn would not lie in the usable area. */
  lemma LeadsOutIff(candidate: Box, usable: Box, others: seq<Box>, dx: int, dy: int)
    ensures LeadsOut(candidate, usable, others, dx, dy) <==>
              !HidesNone(candidate, others) && forall next :: Shifted(candidate, others, dx, dy, next) ==> !usable.ContainsBox(next)
  {
    if !HidesNone(candidate, others) {
      var k :| 0 <= k < |others| && Hides(candidate, others, k);
      var j := TopmostHidden(candidate, others, k);
      assert Shifted(candidate, others, dx, dy, Beside(candidate, others[j], dx, dy));
      forall next | Shifted(candidate, others, dx, dy, next) ensures next == Beside(candidate, others[j], dx, dy) {
        SameFirst(candidate, others, dx, dy, next, Beside(candidate, others[j], dx, dy));
      }
    }
  }

  lemma {:induction false} TopmostHidden(candidate: Box, others: seq<Box>, k: nat) returns (j: nat)
    requires k < |others| && Hides(candidate, others, k)
    ensures HidesFirst(candidate, others, j)
  {
    if i :| 0 <= i < k && Hides(candidate, others, i) {
      j := TopmostHidden(candidate, others, i);
    } else {
      j := k;
    }
  }

  /** The first one is the topmost. */
  lemma HidesFirstIff(candidate: Box, others: seq<Box>, j: nat)
    requires j < |others|
    ensures HidesFirst(candidate, others, j) <==>
              Hides(candidate, others, j) && HidesNone(candidate, others[..j])
  {
    forall k | 0 <= k < j ensures Hides(candidate, others[..j], k) == Hides(candidate, others, k) {
      CoveredPrefix(candidate, others, j, k);
    }
  }

  lemma {:induction false} CoveredPrefix(candidate: Box, others: seq<Box>, j: nat, k: nat)
    requires k <= j <= |others|
    ensures Covered(candidate, others[..j], k) == Covered(candidate, others, k)
  {
    if k > 0 {
      CoveredPrefix(candidate, others, j, k - 1);
    }
  }
}
