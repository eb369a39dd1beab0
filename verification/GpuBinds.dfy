/** The table of GPU buffers bound to surfaces and windows, shared between threads (src/embed.c). */
module GpuBinds {

  import opened Options

  const BIND_MAX := 8

  type Buffer = nat

  datatype Bind = Bind(surface: Option<nat>, kind: int, id: nat, pid: nat, bufW: int, bufH: int, x: int, y: int, ahb: Option<Buffer>)

  const EMPTY := Bind(None, 0, 0, 0, 0, 0, 0, 0, None)

  /** The condition under which gpu_bind_store reuses a slot. */
  predicate SameKey(a: Bind, b: Bind) {
    a.surface == b.surface && (b.surface.Some? || (a.kind == b.kind && a.id == b.id && a.pid == b.pid))
  }

  /** Index of the first slot with the key of b, or the length of the table. */
  function Find(t: seq<Bind>, b: Bind): (i: nat)
    ensures i <= |t|
    ensures i < |t| ==> SameKey(t[i], b)
    ensures forall k :: 0 <= k < i ==> !SameKey(t[k], b)
  {
    if t == [] then 0 else if SameKey(t[0], b) then 0 else 1 + Find(t[1..], b)
  }

  function FindSurface(t: seq<Bind>, surface: nat): (i: nat)
    ensures i <= |t|
    ensures i < |t| ==> t[i].surface == Some(surface)
    ensures forall k :: 0 <= k < i ==> t[k].surface != Some(surface)
  {
    if t == [] then 0 else if t[0].surface == Some(surface) then 0 else 1 + FindSurface(t[1..], surface)
  }

  function Held(b: Bind): multiset<Buffer> {
    match b.ahb
    case None => multiset{}
    case Some(a) => multiset{a}
  }

  /** The references that the slots own. */
  function Bufs(t: seq<Bind>): multiset<Buffer> {
    if t == [] then multiset{} else Held(t[0]) + Bufs(t[1..])
  }

  lemma BufsStep(t: seq<Bind>, i: nat)
    requires i < |t|
    ensures Bufs(t[i..]) == Held(t[i]) + Bufs(t[i + 1..])
  {
    assert t[i..][0] == t[i] && t[i..][1..] == t[i + 1..];
  }

  predicate Storable(b: Bind) {
    b.ahb.Some? && b.bufW > 0 && b.bufH > 0
  }

  /** The table after gpu_bind_store; unchanged when the call fails. */
  function Stored(t: seq<Bind>, b: Bind): seq<Bind> {
    if !Storable(b) then t
    else if Find(t, b) < |t| then t[Find(t, b) := b]
    else if |t| >= BIND_MAX then t
    else t + [b]
  }

  predicate StoreFails(t: seq<Bind>, b: Bind) {
    !Storable(b) || (Find(t, b) == |t| && |t| >= BIND_MAX)
  }

  /** The reference counts after gpu_bind_store. */
  function StoredRefs(t: seq<Bind>, b: Bind, refs: multiset<Buffer>): multiset<Buffer> {
    if StoreFails(t, b) then refs
    else (if Find(t, b) < |t| then refs - Held(t[Find(t, b)]) else refs) + Held(b)
  }

  /** The table after gpu_overlay_forget_surface has taken the slot out. */
  function Forgotten(t: seq<Bind>, surface: nat): seq<Bind> {
    var i := FindSurface(t, surface);
    if i < |t| then t[..i] + t[i + 1..] else t
  }

  function Retired(t: seq<Bind>, surface: nat): Bind {
    var i := FindSurface(t, surface);
    if i < |t| then t[i] else EMPTY
  }

  lemma PlusTwice(a: multiset<Buffer>, b: multiset<Buffer>, c: multiset<Buffer>)
    ensures a + (b + c) == (a + b) + c
  {
  }

  lemma MinusTwice(a: multiset<Buffer>, b: multiset<Buffer>, c: multiset<Buffer>)
    ensures (a - b) - c == a - (b + c)
  {
  }

  lemma {:induction false} BufsLast(t: seq<Bind>)
    requires t != []
    ensures Bufs(t) == Bufs(t[..|t| - 1]) + Held(t[|t| - 1])
  {
    var most, last := t[..|t| - 1], Held(t[|t| - 1]);
    if |t| == 1 {
      assert most == [] && t[1..] == [];
    } else {
      BufsLast(t[1..]);
      assert t[1..][..|t| - 2] == most[1..] && most[0] == t[0];
      PlusTwice(Held(t[0]), Bufs(most[1..]), last);
    }
  }

  /** The counts after the first i slots have given up their references. */
  function ReleasedUpTo(t: seq<Bind>, i: nat, refs: multiset<Buffer>): multiset<Buffer>
    requires i <= |t|
  {
    refs - Bufs(t[..i])
  }

  lemma NothingReleased(t: seq<Bind>, refs: multiset<Buffer>)
    ensures ReleasedUpTo(t, 0, refs) == refs
  {
    assert t[..0] == [];
  }

  lemma ReleasedPrefix(t: seq<Bind>, i: nat, refs: multiset<Buffer>)
    requires i < |t|
    ensures ReleasedUpTo(t, i, refs) - Held(t[i]) == ReleasedUpTo(t, i + 1, refs)
  {
    BufsLast(t[..i + 1]);
    assert t[..i + 1][..i] == t[..i];
    MinusTwice(refs, Bufs(t[..i]), Held(t[i]));
  }

  // ---- the critical sections ----

  class Table {
    var binds: array<Bind>
    var n: nat
    var refs: multiset<Buffer>

    ghost predicate Valid()
      reads this, binds
    {
      binds.Length == BIND_MAX && n <= BIND_MAX
    }

    ghost function Slots(): seq<Bind>
      requires Valid()
      reads this, binds
    {
      binds[..n]
    }

    constructor (refs: multiset<Buffer>)
      ensures Valid() && Slots() == [] && this.refs == refs && fresh(binds)
    {
      binds := new Bind[BIND_MAX](_ => EMPTY);
      n := 0;
      this.refs := refs;
    }

    /** gpu_bind_release on the slot at i */
    method Release(i: nat)
      requires Valid() && i < n
      modifies this`refs, binds
      ensures Valid() && n == old(n) && binds == old(binds)
      ensures refs == old(refs) - Held(old(binds[i]))
      ensures forall j :: 0 <= j < BIND_MAX ==> binds[j] == if j == i then old(binds[i]).(ahb := None) else old(binds[j])
    {
      if binds[i].ahb.Some? {
        refs := refs - multiset{binds[i].ahb.value};
        binds[i] := binds[i].(ahb := None);
      }
    }

    method FindSlot(b: Bind) returns (i: nat)
      requires Valid()
      ensures i == Find(Slots(), b)
    {
      i := 0;
      while i < n
        invariant 0 <= i <= n
        invariant Find(Slots(), b) == i + Find(Slots()[i..], b)
      {
        assert Slots()[i..][0] == binds[i] && Slots()[i..][1..] == Slots()[i + 1..];
        if SameKey(binds[i], b) {
          return;
        }
        i := i + 1;
      }
    }

    /** gpu_bind_store; the bind carries the arguments of the call. */
    method Store(b: Bind) returns (r: int)
      requires Valid()
      modifies this, binds
      ensures Valid() && binds == old(binds)
      ensures Slots() == Stored(old(Slots()), b)
      ensures refs == StoredRefs(old(Slots()), b, old(refs))
      ensures r == if StoreFails(old(Slots()), b) then -1 else 0
    {
      if b.ahb.None? || b.bufW <= 0 || b.bufH <= 0 {
        return -1;
      }
      ghost var t := Slots();
      var i := FindSlot(b);
      if i == n {
        if n >= BIND_MAX {
          return -1;
        }
        binds[n] := EMPTY;
        n := n + 1;
        assert Slots() == t + [EMPTY];
        Put(i, b);
        assert (t + [EMPTY])[i := b] == t + [b];
      } else {
        Put(i, b);
      }
      return 0;
    }

    /** The slot gives up its old buffer and takes a reference of its own to the new one. */
    method Put(i: nat, b: Bind)
      requires Valid() && i < n && b.ahb.Some?
      modifies this`refs, binds
      ensures Valid() && n == old(n) && binds == old(binds)
      ensures Slots() == old(Slots())[i := b]
      ensures refs == old(refs) - Held(old(binds[i])) + Held(b)
    {
      Release(i);
      refs := refs + multiset{b.ahb.value};
      binds[i] := b;
    }

    /** The locked part of gpu_overlay_forget_surface: the slot leaves the table together with its reference. */
    method Take(surface: nat) returns (retired: Bind)
      requires Valid()
      modifies this`n, binds
      ensures Valid() && binds == old(binds) && refs == old(refs)
      ensures Slots() == Forgotten(old(Slots()), surface) && retired == Retired(old(Slots()), surface)
    {
      retired := EMPTY;
      ghost var t := Slots();
      var i := 0;
      while i < n
        invariant 0 <= i <= n && n == old(n) && Slots() == t
        invariant FindSurface(t, surface) == i + FindSurface(t[i..], surface)
        invariant retired == EMPTY
      {
        assert t[i..][0] == t[i] == binds[i] && t[i..][1..] == t[i + 1..];
        if binds[i].surface == Some(surface) {
          retired := binds[i];
          Shift(i);
          return;
        }
        i := i + 1;
      }
    }

    /** memmove over the slot at i, and clearing the last one. */
    method Shift(i: nat)
      requires Valid() && i < n
      modifies this`n, binds
      ensures Valid() && binds == old(binds)
      ensures Slots() == old(Slots())[..i] + old(Slots())[i + 1..]
    {
      ghost var t := Slots();
      var k := i;
      while k + 1 < n
        invariant i <= k < n == old(n)
        invariant binds[..k] == t[..i] + t[i + 1..k + 1]
        invariant forall j :: k < j < n ==> binds[j] == t[j]
      {
        binds[k] := binds[k + 1];
        assert binds[..k + 1] == binds[..k] + [t[k + 1]];
        assert t[i + 1..k + 2] == t[i + 1..k + 1] + [t[k + 1]];
        k := k + 1;
      }
      n := n - 1;
      binds[n] := EMPTY;
    }

    /** The locked part of gpu_overlay_sync: every buffer of the copy is acquired. */
    method Snapshot() returns (local: seq<Bind>)
      requires Valid()
      modifies this`refs
      ensures local == Slots() && refs == old(refs) + Bufs(local)
    {
      local := binds[..n];
      var i := 0;
      ghost var rest := Bufs(local);
      assert local[0..] == local;
      while i < |local|
        invariant 0 <= i <= |local| && local == Slots()
        invariant rest == Bufs(local[i..])
        invariant refs + rest == old(refs) + Bufs(local)
      {
        BufsStep(local, i);
        rest := Bufs(local[i + 1..]);
        PlusTwice(refs, Held(local[i]), rest);
        if local[i].ahb.Some? {
          refs := refs + multiset{local[i].ahb.value};
        }
        i := i + 1;
      }
    }

    /** The loop of the teardown. */
    method ReleaseSlots()
      requires Valid()
      modifies this`refs, binds
      ensures Valid() && binds == old(binds)
      ensures refs == ReleasedUpTo(old(Slots()), n, old(refs))
    {
      ghost var t, start := Slots(), refs;
      var i := 0;
      NothingReleased(t, start);
      while i < n
        invariant 0 <= i <= n == |t| <= BIND_MAX == binds.Length
        invariant forall j :: i <= j < n ==> binds[j] == t[j]
        invariant refs == ReleasedUpTo(t, i, start)
      {
        ReleasedPrefix(t, i, start);
        Release(i);
        i := i + 1;
      }
    }

    /** The teardown at the end of anlabwc_run. */
    method Clear()
      requires Valid()
      modifies this, binds
      ensures Valid() && Slots() == [] && refs == old(refs) - Bufs(old(Slots()))
    {
      ghost var t := Slots();
      ReleaseSlots();
      assert t[..|t|] == t;
      n := 0;
    }
  }
}
