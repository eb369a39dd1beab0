/** Which outputs are listed, and with which ids (src/output.c). */
module OutputLaws {

  import opened OutputIds
  import opened Outputs

  /** An output announced again changes nothing. */
  lemma KnownIsIgnored(s: State, handle: int, shown: bool, t: State)
    requires Added(s, handle, shown, t) && exists o <- s.outputs :: o.handle == handle
    ensures t == s
  {
    var o :| o in s.outputs && o.handle == handle;
    var i :| 0 <= i < |s.outputs| && s.outputs[i] == o;
    assert Known(s.outputs, handle);
  }

  /**
   A new output is listed exactly if it is to be shown and fewer than 64 are listed; it comes first, with a single
   bit that no other has, and the others stay.
   */
  lemma NewIsListedIff(s: State, handle: int, shown: bool, t: State)
    requires Consistent(s) && Added(s, handle, shown, t) && forall o <- s.outputs :: o.handle != handle
    ensures if shown && |s.outputs| < 64 then
              && |t.outputs| == |s.outputs| + 1 && t.outputs[0].handle == handle && t.outputs[1..] == s.outputs
              && SingleBit(t.outputs[0].bit) && forall o <- s.outputs :: o.bit != t.outputs[0].bit
            else t.outputs == s.outputs
  {
    assert !Known(s.outputs, handle);
    var id :| Allocates(s.next, Used(s.outputs), id, t.next)
              && t.outputs == if id != 0 && shown then [Output(handle, id)] + s.outputs else s.outputs;
    AllocatesIff(s, id, t.next);
    PutFirst(s.outputs, Output(handle, id));
  }

  lemma PutFirst(os: seq<Output>, o: Output)
    ensures |[o] + os| == |os| + 1 && ([o] + os)[0] == o && ([o] + os)[1..] == os
  {
  }

  /** A bit is handed out exactly if fewer than 64 outputs are listed. */
  lemma AllocatesIff(s: State, id: Word, after: Word)
    requires Consistent(s) && Allocates(s.next, Used(s.outputs), id, after)
    ensures id != 0 <==> |s.outputs| < 64
    ensures id != 0 ==> SingleBit(id) && forall o <- s.outputs :: o.bit != id
  {
    AllocatedIsNew(s, id, after);
    FullIffSixtyFour(s);
    if id != 0 {
      forall o | o in s.outputs ensures o.bit != id {
        var i :| 0 <= i < |s.outputs| && s.outputs[i] == o;
        assert !Holds(s.outputs, id);
      }
    }
  }

  /** An output that ends leaves the list, all others stay, and its bit is free again. */
  lemma EndedIsFree(s: State, handle: int, t: State, o: Output)
    requires Consistent(s) && Removed(s, handle, t)
    ensures o in t.outputs <==> o in s.outputs && o.handle != handle
    ensures o in s.outputs && o.handle == handle ==> o.bit & Used(t.outputs) == 0
  {
    WithoutIsPart(s.outputs, handle);
    WithoutKeeps(s.outputs, handle);
    if o in s.outputs && o.handle == handle {
      var k :| 0 <= k < |s.outputs| && s.outputs[k] == o;
      UsedIsHeld(t.outputs, o.bit);
      forall i | 0 <= i < |t.outputs| ensures t.outputs[i].bit != o.bit {
        assert t.outputs[i] in s.outputs;
        var j :| 0 <= j < |s.outputs| && s.outputs[j] == t.outputs[i];
        assert j != k;
      }
    }
  }
}
