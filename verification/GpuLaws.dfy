/** What the table of GPU buffers holds after each operation, entry by entry (src/embed.c). */
module GpuLaws {

  import opened Options
  import opened GpuBinds
  import opened GpuRuns

  /** Two binds are for the same surface, or for the same window of a client without one. */
  predicate SameOwner(a: Bind, b: Bind) {
    match (a.surface, b.surface)
    case (Some(s), Some(t)) => s == t
    case (None, None) => (a.kind, a.id, a.pid) == (b.kind, b.id, b.pid)
    case _ => false
  }

  lemma SameKeyIff(a: Bind, b: Bind)
    ensures SameKey(a, b) <==> SameOwner(a, b)
  {
  }

  /** A store succeeds exactly with a buffer that has a size, if its owner has a slot already or one of the eight is free. */
  lemma StoreSucceedsIff(t: seq<Bind>, b: Bind)
    ensures !StoreFails(t, b) <==>
              b.ahb != None && b.bufW > 0 && b.bufH > 0 && (|t| < 8 || exists c <- t :: SameOwner(c, b))
  {
    if Find(t, b) < |t| {
      assert t[Find(t, b)] in t;
    }
    if c :| c in t && SameOwner(c, b) {
      var k :| 0 <= k < |t| && t[k] == c;
      assert SameKey(t[k], b);
    }
  }

  /** A failed store changes nothing. */
  lemma FailedStoreIsNothing(t: seq<Bind>, b: Bind, refs: multiset<Buffer>)
    requires StoreFails(t, b)
    ensures Stored(t, b) == t && StoredRefs(t, b, refs) == refs
  {
  }

  /** A successful one puts b in the place of the owner's slot, or at the end, and leaves all other slots in their places. */
  lemma StoredIs(t: seq<Bind>, b: Bind, k: nat)
    requires TableOk(t) && !StoreFails(t, b)
    ensures var u := Stored(t, b);
            && b in u && |t| <= |u| <= |t| + 1
            && (k < |t| ==> u[k] == if SameOwner(t[k], b) then b else t[k])
            && (|u| > |t| <==> forall c <- t :: !SameOwner(c, b))
            && (|u| > |t| ==> u[|t|] == b)
  {
    var i, u := Find(t, b), Stored(t, b);
    assert u[i] == b;
    OneSlot(t, b);
    if i < |t| {
      assert t[i] in t;
    }
  }

  /** With unique owners the search finds the only slot of an owner. */
  lemma OneSlot(t: seq<Bind>, b: Bind)
    requires TableOk(t)
    ensures forall k :: 0 <= k < |t| ==> (SameOwner(t[k], b) <==> k == Find(t, b))
  {
    var i := Find(t, b);
    forall k | 0 <= k < |t| && k != i ensures !SameOwner(t[k], b) {
      if i < k {
        assert !SameKey(t[i], t[k]);
      }
    }
  }

  /** The owner's new buffer gains a reference and its old one loses one; no other count changes. */
  lemma StoredCounts(t: seq<Bind>, b: Bind, refs: multiset<Buffer>, a: Buffer, k: nat)
    requires TableOk(t) && !StoreFails(t, b) && k < |t| && SameOwner(t[k], b) && Bufs(t) <= refs
    ensures StoredRefs(t, b, refs)[a] + (if t[k].ahb == Some(a) then 1 else 0) == refs[a] + (if b.ahb == Some(a) then 1 else 0)
  {
    OneSlot(t, b);
    HeldInBufs(t, k);
  }

  lemma {:induction false} HeldInBufs(t: seq<Bind>, k: nat)
    requires k < |t|
    ensures Held(t[k]) <= Bufs(t)
  {
    if k > 0 {
      HeldInBufs(t[1..], k - 1);
    }
  }

  /** Forgetting a surface takes out its bind and no other, and keeps the order. */
  lemma ForgottenIs(t: seq<Bind>, surface: nat, k: nat)
    requires TableOk(t) && k < |t|
    ensures var u, there := Forgotten(t, surface), exists c <- t :: c.surface == Some(surface);
            && |u| == (if there then |t| - 1 else |t|)
            && (t[k].surface == Some(surface) ==> Retired(t, surface) == t[k] && u == t[..k] + t[k + 1..])
            && (!there ==> u == t && Retired(t, surface) == EMPTY)
  {
    var i := FindSurface(t, surface);
    if i < |t| {
      assert t[i] in t;
      forall j | 0 <= j < |t| && j != i ensures t[j].surface != Some(surface) {
        if i < j {
          assert !SameKey(t[i], t[j]);
        }
      }
    }
  }

  /** A copy for presenting holds every buffer of the table, and each of them has gained a reference. */
  lemma CopyHoldsTable(s: Sys, a: Buffer)
    requires Inv(s)
    ensures var t := Next(s, SyncCopy);
            && |t.syncs| == |s.syncs| + 1 && t.table == s.table && !t.syncs[|s.syncs|].presented
            && multiset(t.syncs[|s.syncs|].held)[a] == Bufs(s.table)[a] == t.refs[a] - s.refs[a]
            && (a in t.syncs[|s.syncs|].held <==> exists c <- s.table :: c.ahb == Some(a))
  {
    BuffersAreBufs(s.table);
    InBuffersIff(s.table, a);
  }

  lemma {:induction false} InBuffersIff(t: seq<Bind>, a: Buffer)
    ensures a in Buffers(t) <==> exists c <- t :: c.ahb == Some(a)
  {
    if t != [] {
      InBuffersIff(t[1..], a);
      assert forall c :: c in t <==> c == t[0] || c in t[1..];
      assert t[0] in t;
    }
  }

  /** The steps of one presentation change only its own copy, and each release gives up one of its references. */
  lemma SyncStepsAre(s: Sys, i: nat)
    requires i < |s.syncs|
    ensures Enabled(s, SyncPresent(i)) ==>
              Next(s, SyncPresent(i)) == s.(syncs := s.syncs[i := Sync(s.syncs[i].held, true)])
    ensures Enabled(s, SyncRelease(i)) ==>
              var t, a := Next(s, SyncRelease(i)), s.syncs[i].held[0];
              && t.table == s.table && t.owned == s.owned && t.retired == s.retired && t.refs == s.refs - multiset{a}
              && |t.syncs| == |s.syncs| && [a] + t.syncs[i].held == s.syncs[i].held && t.syncs[i].presented
              && forall j :: 0 <= j < |s.syncs| && j != i ==> t.syncs[j] == s.syncs[j]
    ensures Enabled(s, SyncDone(i)) ==>
              var t := Next(s, SyncDone(i));
              && t.table == s.table && t.refs == s.refs && t.owned == s.owned && t.retired == s.retired
              && |t.syncs| == |s.syncs| - 1
              && (forall j :: 0 <= j < i ==> t.syncs[j] == s.syncs[j]) && forall j :: i < j < |s.syncs| ==> t.syncs[j - 1] == s.syncs[j]
  {
  }
}
