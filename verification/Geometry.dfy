/** Boxes, borders and the C integer limits that the window-management code uses as sentinels. */
module Geometry {

  const INT_MAX := 0x7fff_ffff
  const INT_MIN := -0x8000_0000

  /** The macro BOUNDED_INT: neither of the two sentinels (nor anything beyond them). */
  predicate Bounded(a: int) {
    INT_MIN < a < INT_MAX
  }

  /** An int that C can represent. */
  predicate IsInt(a: int) {
    INT_MIN <= a <= INT_MAX
  }

  datatype Box = Box(x: int, y: int, width: int, height: int)
  {
    /** wlr_box_empty */
    predicate Empty() {
      width <= 0 || height <= 0
    }

    function Right(): int { x + width }

    function Bottom(): int { y + height }

    /** wlr_box_contains_point */
    predicate ContainsPoint(px: int, py: int) {
      !Empty() && x <= px < Right() && y <= py < Bottom()
    }

    /** wlr_box_contains_box */
    predicate ContainsBox(o: Box) {
      !Empty() && !o.Empty() && x <= o.x && o.Right() <= Right() && y <= o.y && o.Bottom() <= Bottom()
    }

    /** box_intersects */
    predicate Intersects(o: Box) {
      !Empty() && !o.Empty() && x < o.Right() && o.x < Right() && y < o.Bottom() && o.y < Bottom()
    }
  }

  /** An output as far as geometry goes: whether it can be used, and its usable area in the layout. */
  datatype Output = Output(id: nat, usable: bool, area: Box)

  datatype Border = Border(top: int, right: int, bottom: int, left: int)

  function Min(a: int, b: int): int {
    if a < b then a else b
  }

  function Max(a: int, b: int): int {
    if a > b then a else b
  }

  function Abs(a: int): int {
    if a < 0 then -a else a
  }

  /** C division by 2, which truncates towards zero. */
  function Half(a: int): int {
    if a < 0 then -(-a / 2) else a / 2
  }

  /** box_center, on one axis: centred in [pos, pos + extent), and kept inside it if possible. */
  function CenterAxis(size: int, pos: int, extent: int): int {
    var x := pos + Half(extent - size);
    if x < pos then pos else if x + size > pos + extent then pos + extent - size else x
  }

  /**
   A segment is centred to a pixel in another one that is large enough. A larger one starts where that starts, but
   one that is larger by a single pixel ends where it ends.
   */
  predicate CentredOn(pos: int, size: int, start: int, extent: int) {
    if size <= extent then start <= pos && Abs((pos - start) - (start + extent - (pos + size))) <= 1
    else if size == extent + 1 then pos + size == start + extent
    else pos == start
  }

  lemma CenterAxisCentres(size: int, pos: int, extent: int)
    ensures CentredOn(CenterAxis(size, pos, extent), size, pos, extent)
    ensures size <= extent ==> CenterAxis(size, pos, extent) + size <= pos + extent
  {
  }

  /** Coordinates so far from the limits of an int that sums of a few of them are exact. */
  predicate Small(a: int) {
    -0x1000_0000 < a < 0x1000_0000
  }

  predicate SmallBorder(b: Border) {
    Small(b.top) && Small(b.right) && Small(b.bottom) && Small(b.left)
  }

  predicate SmallBox(b: Box) {
    Small(b.x) && Small(b.y) && Small(b.width) && Small(b.height)
  }
}
