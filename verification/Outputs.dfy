/** The list of live outputs and the cursor that hands out their id bits (src/output.c). */
module Outputs {

  import opened OutputIds

  /** One live output: the backend's object and the bit that stands for it. */
  datatype Output = Output(handle: int, bit: Word)

  datatype State = State(outputs: seq<Output>, next: Word)

  function Used(os: seq<Output>): Word {
    if os == [] then 0 else Used(os[..|os| - 1]) | os[|os| - 1].bit
  }

  predicate Singles(os: seq<Output>) {
    forall i :: 0 <= i < |os| ==> SingleBit(os[i].bit)
  }

  predicate NoneAlike(os: seq<Output>) {
    forall i, j :: 0 <= i < j < |os| ==> os[i].bit != os[j].bit && os[i].handle != os[j].handle
  }

  predicate Consistent(s: State) {
    SingleBit(s.next) && Singles(s.outputs) && NoneAlike(s.outputs)
  }

  predicate Holds(os: seq<Output>, bit: Word) {
    exists i :: 0 <= i < |os| && os[i].bit == bit
  }

  predicate Known(os: seq<Output>, handle: int) {
    exists i :: 0 <= i < |os| && os[i].handle == handle
  }

  lemma AndDistributes(a: Word, b: Word, x: Word)
    ensures x & (a | b) == (x & a) | (x & b)
  {
  }

  lemma OrIsZero(a: Word, b: Word)
    ensures a | b == 0 <==> a == 0 && b == 0
  {
  }

  lemma SinglesMeet(x: Word, y: Word)
    requires SingleBit(x) && SingleBit(y)
    ensures x & y == 0 <==> x != y
  {
  }

  lemma MeetsNothing(x: Word)
    ensures x & 0 == 0
  {
  }

  lemma {:induction false} UsedIsHeld(os: seq<Output>, bit: Word)
    requires Singles(os) && SingleBit(bit)
    ensures bit & Used(os) == 0 <==> !Holds(os, bit)
  {
    if os == [] {
      MeetsNothing(bit);
    } else {
      var most, last := os[..|os| - 1], os[|os| - 1].bit;
      UsedIsHeld(most, bit);
      AndDistributes(Used(most), last, bit);
      OrIsZero(bit & Used(most), bit & last);
      SinglesMeet(bit, last);
      HeldLast(os, bit);
    }
  }

  lemma HeldLast(os: seq<Output>, bit: Word)
    requires os != []
    ensures Holds(os, bit) <==> os[|os| - 1].bit == bit || Holds(os[..|os| - 1], bit)
  {
    if i :| 0 <= i < |os| - 1 && os[i].bit == bit {
      assert os[..|os| - 1][i].bit == bit;
    }
  }

  // ---- allocation ----

  /** The first free bit from the cursor on, with the cursor moved past it; or no bit at all. */
  predicate Allocates(next: Word, used: Word, id: Word, after: Word) {
    if used == ALL then id == 0 && after == next
    else after == RotateLeft(id) && FirstFree(next, used, id)
  }

  predicate FirstFree(next: Word, used: Word, id: Word) {
    exists n :: 0 <= n < 64 && id == RotateBy(next, n) && FreeFirstAt(next, n, used)
  }

  predicate NoneBefore(next: Word, n: nat, used: Word) {
    forall m :: 0 <= m < n ==> !Free(next, m, used)
  }

  predicate FreeFirstAt(next: Word, n: nat, used: Word) {
    Free(next, n, used) && NoneBefore(next, n, used)
  }

  /** After n rotations the search stands at id and has met used bits only. */
  predicate Trying(next: Word, used: Word, n: nat, id: Word) {
    n < 64 && id == RotateBy(next, n) && NoneBefore(next, n, used)
  }

  lemma TryNext(next: Word, used: Word, n: nat, id: Word)
    requires SingleBit(next) && used != ALL && Trying(next, used, n, id) && id & used != 0
    ensures Trying(next, used, n + 1, RotateLeft(id))
  {
    FreeWithin64(next, used);
  }

  lemma TryingEnds(next: Word, used: Word, n: nat, id: Word)
    requires Trying(next, used, n, id) && id & used == 0
    ensures FirstFree(next, used, id)
  {
    assert FreeFirstAt(next, n, used);
  }

  lemma SingleIsNotZero(x: Word)
    requires SingleBit(x)
    ensures x != 0
  {
  }

  /** A bit is handed out exactly when one is unused, and it is a single bit no output has. */
  lemma AllocatedIsNew(s: State, id: Word, after: Word)
    requires Consistent(s) && Allocates(s.next, Used(s.outputs), id, after)
    ensures SingleBit(after)
    ensures id == 0 <==> Used(s.outputs) == ALL
    ensures id != 0 ==> SingleBit(id) && !Holds(s.outputs, id)
  {
    if Used(s.outputs) != ALL {
      var n :| 0 <= n < 64 && id == RotateBy(s.next, n) && FreeFirstAt(s.next, n, Used(s.outputs));
      RotateByKeepsSingle(s.next, n);
      RotateKeepsSingle(id);
      UsedIsHeld(s.outputs, id);
      SingleIsNotZero(id);
    }
  }

  // ---- every run ----

  /** A new backend output: `shown` when it is a desktop output whose renderer could be set up. */
  ghost predicate Added(s: State, handle: int, shown: bool, t: State) {
    if Known(s.outputs, handle) then t == s
    else exists id :: Allocates(s.next, Used(s.outputs), id, t.next)
                      && t.outputs == if id != 0 && shown then [Output(handle, id)] + s.outputs else s.outputs
  }

  function Without(os: seq<Output>, handle: int): seq<Output> {
    if os == [] then []
    else if os[0].handle == handle then Without(os[1..], handle)
    else [os[0]] + Without(os[1..], handle)
  }

  predicate Removed(s: State, handle: int, t: State) {
    t == State(Without(s.outputs, handle), s.next)
  }

  ghost predicate Step(s: State, t: State) {
    || (exists handle, shown :: Added(s, handle, shown, t))
    || (exists handle :: Removed(s, handle, t))
  }

  lemma PrependKeeps(os: seq<Output>, o: Output)
    requires Singles(os) && NoneAlike(os) && SingleBit(o.bit)
    requires !Holds(os, o.bit) && !Known(os, o.handle)
    ensures Singles([o] + os) && NoneAlike([o] + os)
  {
  }

  lemma AddedIs(s: State, handle: int, shown: bool, id: Word, t: State)
    requires !Known(s.outputs, handle) && Allocates(s.next, Used(s.outputs), id, t.next)
    requires t.outputs == if id != 0 && shown then [Output(handle, id)] + s.outputs else s.outputs
    ensures Added(s, handle, shown, t)
  {
  }

  /** A fresh entry in front. */
  lemma NewIsSound(s: State, handle: int, id: Word, after: Word)
    requires Consistent(s) && !Known(s.outputs, handle) && Allocates(s.next, Used(s.outputs), id, after) && id != 0
    ensures Singles([Output(handle, id)] + s.outputs) && NoneAlike([Output(handle, id)] + s.outputs)
  {
    AllocatedIsNew(s, id, after);
    PrependKeeps(s.outputs, Output(handle, id));
  }

  lemma AddedKeeps(s: State, handle: int, shown: bool, t: State)
    requires Consistent(s) && Added(s, handle, shown, t)
    ensures Consistent(t)
  {
    if !Known(s.outputs, handle) {
      var id :| Allocates(s.next, Used(s.outputs), id, t.next)
                && t.outputs == if id != 0 && shown then [Output(handle, id)] + s.outputs else s.outputs;
      AllocatedIsNew(s, id, t.next);
      if id != 0 && shown {
        NewIsSound(s, handle, id, t.next);
      }
    }
  }

  lemma {:induction false} WithoutIsPart(os: seq<Output>, handle: int)
    ensures forall x <- Without(os, handle) :: x in os && x.handle != handle
    ensures forall x <- os :: x.handle != handle ==> x in Without(os, handle)
  {
    if os != [] {
      WithoutIsPart(os[1..], handle);
    }
  }

  lemma {:induction false} WithoutKeeps(os: seq<Output>, handle: int)
    requires Singles(os) && NoneAlike(os)
    ensures Singles(Without(os, handle)) && NoneAlike(Without(os, handle))
  {
    if os != [] {
      var rest := Without(os[1..], handle);
      WithoutKeeps(os[1..], handle);
      if os[0].handle != handle {
        WithoutIsPart(os[1..], handle);
        HeadDiffers(os);
        forall k | 0 <= k < |rest| ensures os[0].bit != rest[k].bit && os[0].handle != rest[k].handle {
          assert rest[k] in os[1..];
        }
        ConsNoneAlike(os[0], rest);
      }
    }
  }

  lemma HeadDiffers(os: seq<Output>)
    requires os != [] && NoneAlike(os)
    ensures forall x <- os[1..] :: os[0].bit != x.bit && os[0].handle != x.handle
  {
    forall x | x in os[1..] ensures os[0].bit != x.bit && os[0].handle != x.handle {
      var k :| 0 <= k < |os[1..]| && os[1..][k] == x;
      assert os[k + 1] == x;
    }
  }

  lemma ConsNoneAlike(o: Output, os: seq<Output>)
    requires NoneAlike(os) && forall k :: 0 <= k < |os| ==> o.bit != os[k].bit && o.handle != os[k].handle
    ensures NoneAlike([o] + os)
  {
  }

  /**
   * Along every run of outputs coming and going, live outputs have pairwise
   * different single-bit ids and the cursor is one bit.
   */
  lemma {:induction false} RunsKeepIdsDistinct(run: seq<State>)
    requires run != [] && Consistent(run[0])
    requires forall i :: 0 <= i < |run| - 1 ==> Step(run[i], run[i + 1])
    ensures Consistent(run[|run| - 1])
  {
    if |run| > 1 {
      var s, t := run[|run| - 2], run[|run| - 1];
      RunsKeepIdsDistinct(run[..|run| - 1]);
      assert Step(run[|run| - 2], run[|run| - 2 + 1]);
      if handle, shown :| Added(s, handle, shown, t) {
        AddedKeeps(s, handle, shown, t);
      } else {
        var handle :| Removed(s, handle, t);
        WithoutKeeps(s.outputs, handle);
      }
    }
  }

  // ---- how many outputs there can be ----

  function Positions(os: seq<Output>): (ps: seq<nat>)
    ensures |ps| == |os|
    ensures forall i :: 0 <= i < |os| ==> ps[i] == Position(os[i].bit)
  {
    seq(|os|, i requires 0 <= i < |os| => Position(os[i].bit))
  }

  function Elements(ps: seq<nat>): set<nat> {
    set p | p in ps
  }

  function UpTo(n: nat): (s: set<nat>)
    ensures |s| == n
    ensures forall k: nat :: k in s <==> k < n
  {
    if n == 0 then {} else UpTo(n - 1) + {n - 1}
  }

  lemma {:induction false} ElementsCount(ps: seq<nat>)
    requires forall i, j :: 0 <= i < j < |ps| ==> ps[i] != ps[j]
    ensures |Elements(ps)| == |ps|
  {
    if ps != [] {
      ElementsCount(ps[1..]);
      assert Elements(ps) == {ps[0]} + Elements(ps[1..]);
    }
  }

  lemma PositionsDiffer(os: seq<Output>)
    requires Singles(os) && NoneAlike(os)
    ensures forall i, j :: 0 <= i < j < |os| ==> Positions(os)[i] != Positions(os)[j]
  {
    forall i, j | 0 <= i < j < |os| ensures Positions(os)[i] != Positions(os)[j] {
      assert os[i].bit != os[j].bit;
      if Positions(os)[i] == Positions(os)[j] {
        PositionTells(os[i].bit, os[j].bit);
      }
    }
  }

  lemma PositionsInRange(os: seq<Output>)
    ensures Elements(Positions(os)) <= UpTo(64)
  {
    forall i | 0 <= i < |os| ensures Positions(os)[i] < 64 {
      PositionBelow64(os[i].bit);
    }
  }

  lemma SubsetSize(a: set<nat>, b: set<nat>)
    requires a <= b
    ensures |a| <= |b| && (|a| == |b| <==> a == b)
  {
    assert b == a + (b - a);
  }

  /** At most 64 outputs are live, and no bit is left exactly when there are 64. */
  lemma FullIffSixtyFour(s: State)
    requires Consistent(s)
    ensures |s.outputs| <= 64
    ensures Used(s.outputs) == ALL <==> |s.outputs| == 64
  {
    var os := s.outputs;
    PositionsDiffer(os);
    ElementsCount(Positions(os));
    PositionsInRange(os);
    SubsetSize(Elements(Positions(os)), UpTo(64));
    if Used(os) == ALL {
      AllBitsHeld(os);
    } else {
      FreeBitUnheld(s);
    }
  }

  lemma MeetsAll(x: Word)
    ensures x & ALL == x
  {
  }

  /** The bit n places above the lowest. */
  lemma BitAt(n: nat)
    requires n < 64
    ensures SingleBit(RotateBy(1, n)) && Position(RotateBy(1, n)) == n
  {
    LowestIsFirst();
    RotateByKeepsSingle(1, n);
    PositionOfRotation(1, n);
  }

  lemma LowestIsFirst()
    ensures SingleBit(1) && Position(1) == 0
  {
  }

  lemma AllBitsHeld(os: seq<Output>)
    requires Singles(os) && Used(os) == ALL
    ensures UpTo(64) <= Elements(Positions(os))
  {
    forall n: nat | n < 64 ensures n in Positions(os) {
      BitAt(n);
      var b := RotateBy(1, n);
      UsedIsHeld(os, b);
      MeetsAll(b);
      SingleIsNotZero(b);
      var i :| 0 <= i < |os| && os[i].bit == b;
      assert Positions(os)[i] == n;
    }
  }

  lemma FreeBitUnheld(s: State)
    requires Consistent(s) && Used(s.outputs) != ALL
    ensures Elements(Positions(s.outputs)) != UpTo(64)
  {
    var os := s.outputs;
    var b := UnusedBit(os);
    UnheldPosition(os, b);
    PositionBelow64(b);
    assert Position(b) in UpTo(64);
  }

  lemma UnusedBit(os: seq<Output>) returns (b: Word)
    requires Singles(os) && Used(os) != ALL
    ensures SingleBit(b) && !Holds(os, b)
  {
    b := LowestFree(Used(os));
    LowestFreeIsFree(Used(os));
    UsedIsHeld(os, b);
  }

  lemma UnheldPosition(os: seq<Output>, b: Word)
    requires Singles(os) && SingleBit(b) && !Holds(os, b)
    ensures Position(b) !in Positions(os)
  {
    forall i | 0 <= i < |os| ensures Positions(os)[i] != Position(b) {
      assert os[i].bit != b;
      if Position(os[i].bit) == Position(b) {
        PositionTells(os[i].bit, b);
      }
    }
  }

  // ---- the source's operations ----

  method RotateToFree(start: Word, used: Word) returns (id: Word)
    requires SingleBit(start) && used != ALL
    ensures FirstFree(start, used, id)
  {
    id := start;
    ghost var n := 0;
    while id & used != 0
      invariant Trying(start, used, n, id)
      decreases 64 - n
    {
      TryNext(start, used, n, id);
      id := RotateLeft(id);
      n := n + 1;
    }
    TryingEnds(start, used, n, id);
  }

  class Manager {
    var outputs: seq<Output>
    var next: Word

    ghost predicate Valid()
      reads this
    {
      Consistent(Now())
    }

    function Now(): State
      reads this
    {
      State(outputs, next)
    }

    constructor ()
      ensures Valid() && outputs == []
    {
      outputs, next := [], 1;
    }

    /** get_unused_output_id_bit */
    method UnusedIdBit() returns (id: Word)
      requires Valid()
      modifies this`next
      ensures Allocates(old(next), Used(outputs), id, next)
    {
      var used := CollectUsed();
      if used == ALL {
        return 0;
      }
      id := RotateToFree(next, used);
      next := RotateLeft(id);
    }

    method CollectUsed() returns (used: Word)
      ensures used == Used(outputs)
    {
      used := 0;
      for i := 0 to |outputs|
        invariant used == Used(outputs[..i])
      {
        assert outputs[..i + 1][..i] == outputs[..i];
        used := used | outputs[i].bit;
      }
      assert outputs[..|outputs|] == outputs;
    }

    /** handle_new_output, as far as the list and the cursor go */
    method Add(handle: int, shown: bool)
      requires Valid()
      modifies this
      ensures Valid() && Added(old(Now()), handle, shown, Now())
    {
      var known := IsKnown(handle);
      if !known {
        AddNew(handle, shown);
      }
    }

    method AddNew(handle: int, shown: bool)
      requires Valid() && !Known(outputs, handle)
      modifies this
      ensures Valid() && Added(old(Now()), handle, shown, Now())
    {
      ghost var was := Now();
      var id := UnusedIdBit();
      List(handle, id, shown);
      AddedIs(was, handle, shown, id, Now());
      AddedKeeps(was, handle, shown, Now());
    }

    method List(handle: int, id: Word, shown: bool)
      modifies this`outputs
      ensures outputs == if id != 0 && shown then [Output(handle, id)] + old(outputs) else old(outputs)
    {
      if id != 0 && shown {
        outputs := [Output(handle, id)] + outputs;
      }
    }

    method IsKnown(handle: int) returns (known: bool)
      ensures known == Known(outputs, handle)
    {
      known := false;
      for i := 0 to |outputs|
        invariant forall j :: 0 <= j < i ==> outputs[j].handle != handle
      {
        if outputs[i].handle == handle {
          return true;
        }
      }
    }

    /** handle_output_destroy, as far as the list goes */
    method Remove(handle: int)
      requires Valid()
      modifies this`outputs
      ensures Valid() && Removed(old(Now()), handle, Now())
    {
      WithoutKeeps(outputs, handle);
      outputs := Without(outputs, handle);
    }
  }
}
