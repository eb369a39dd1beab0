/** Interleavings of binding, forgetting and presenting GPU buffers: who owns which reference (src/embed.c). */
module GpuRuns {
  import opened Options
  import opened GpuBinds

  /** One call of gpu_overlay_sync that has copied the table and holds the buffers of its copy. */
  datatype Sync = Sync(held: seq<Buffer>, presented: bool)

  /**
   The table and its reference counts; the references that callers hold themselves; the syncs in flight; and
   the buffers that forget has taken out of the table but not yet released.
   */
  datatype Sys = Sys(table: seq<Bind>, refs: multiset<Buffer>, owned: multiset<Buffer>, syncs: seq<Sync>, retired: multiset<Buffer>)

  function Locals(syncs: seq<Sync>): multiset<Buffer> {
    if syncs == [] then multiset{} else multiset(syncs[0].held) + Locals(syncs[1..])
  }

  function Buffers(t: seq<Bind>): seq<Buffer> {
    if t == [] then []
    else match t[0].ahb
      case None => Buffers(t[1..])
      case Some(a) => [a] + Buffers(t[1..])
  }

  /** No two slots have the same key, and every slot owns a buffer. */
  predicate TableOk(t: seq<Bind>) {
    && |t| <= BIND_MAX
    && (forall i, j :: 0 <= i < j < |t| ==> !SameKey(t[i], t[j]) && !SameKey(t[j], t[i]))
    && (forall i :: 0 <= i < |t| ==> t[i].ahb.Some?)
  }

  /** Every reference is accounted for by exactly one owner. */
  predicate Accounted(s: Sys) {
    s.refs == s.owned + Bufs(s.table) + Locals(s.syncs) + s.retired
  }

  predicate Inv(s: Sys) {
    TableOk(s.table) && Accounted(s)
  }

  /** Critical sections and single releases are atomic; everything else interleaves freely. */
  datatype Step =
    | Import(b: Buffer)
    | CallerRelease(b: Buffer)
    | Store(bind: Bind)
    | ForgetTake(surface: nat)
    | ForgetRelease(b: Buffer)
    | SyncCopy
    | SyncPresent(i: nat)
    | SyncRelease(i: nat)
    | SyncDone(i: nat)
    | Teardown

  predicate Enabled(s: Sys, e: Step) {
    match e
    case Import(_) => true
    case CallerRelease(b) => b in s.owned
    case Store(bind) => bind.ahb.Some? ==> bind.ahb.value in s.owned
    case ForgetTake(_) => true
    case ForgetRelease(b) => b in s.retired
    case SyncCopy => true
    case SyncPresent(i) => i < |s.syncs| && !s.syncs[i].presented
    case SyncRelease(i) => i < |s.syncs| && s.syncs[i].presented && s.syncs[i].held != []
    case SyncDone(i) => i < |s.syncs| && s.syncs[i].held == []
    case Teardown => true
  }

  function Next(s: Sys, e: Step): Sys
    requires Enabled(s, e)
  {
    match e
    case Import(b) => s.(refs := s.refs + multiset{b}, owned := s.owned + multiset{b})
    case CallerRelease(b) => s.(refs := s.refs - multiset{b}, owned := s.owned - multiset{b})
    case Store(bind) => s.(table := Stored(s.table, bind), refs := StoredRefs(s.table, bind, s.refs))
    case ForgetTake(surface) =>
      s.(table := Forgotten(s.table, surface), retired := s.retired + Held(Retired(s.table, surface)))
    case ForgetRelease(b) => s.(refs := s.refs - multiset{b}, retired := s.retired - multiset{b})
    case SyncCopy => s.(refs := s.refs + Bufs(s.table), syncs := s.syncs + [Sync(Buffers(s.table), false)])
    case SyncPresent(i) => s.(syncs := s.syncs[i := s.syncs[i].(presented := true)])
    case SyncRelease(i) =>
      s.(refs := s.refs - multiset{s.syncs[i].held[0]},
         syncs := s.syncs[i := s.syncs[i].(held := s.syncs[i].held[1..])])
    case SyncDone(i) => s.(syncs := s.syncs[..i] + s.syncs[i + 1..])
    case Teardown => s.(table := [], refs := s.refs - Bufs(s.table))
  }

  // ---- sums ----

  lemma Swap(a: multiset<Buffer>, b: multiset<Buffer>, c: multiset<Buffer>)
    ensures a + (b + c) == b + (a + c)
  {
  }

  lemma {:induction false} BuffersAreBufs(t: seq<Bind>)
    ensures multiset(Buffers(t)) == Bufs(t)
  {
    if t != [] {
      BuffersAreBufs(t[1..]);
    }
  }

  lemma {:induction false} BufsAppend(t: seq<Bind>, b: Bind)
    ensures Bufs(t + [b]) == Bufs(t) + Held(b)
  {
    BufsLast(t + [b]);
    assert (t + [b])[..|t|] == t;
  }

  lemma {:induction false} BufsAt(t: seq<Bind>, i: nat)
    requires i < |t|
    ensures Bufs(t) == Held(t[i]) + Bufs(t[..i] + t[i + 1..])
  {
    if i == 0 {
      assert t[..0] + t[1..] == t[1..];
    } else {
      BufsAt(t[1..], i - 1);
      var rest := t[1..][..i - 1] + t[1..][i..];
      assert t[..i] + t[i + 1..] == [t[0]] + rest;
      Swap(Held(t[0]), Held(t[i]), Bufs(rest));
    }
  }

  lemma BufsUpdate(t: seq<Bind>, i: nat, b: Bind)
    requires i < |t|
    ensures Bufs(t[i := b]) == Bufs(t) - Held(t[i]) + Held(b) && Held(t[i]) <= Bufs(t)
  {
    BufsAt(t, i);
    BufsAt(t[i := b], i);
    assert t[i := b][..i] + t[i := b][i + 1..] == t[..i] + t[i + 1..];
  }

  lemma {:induction false} LocalsAt(syncs: seq<Sync>, i: nat)
    requires i < |syncs|
    ensures Locals(syncs) == multiset(syncs[i].held) + Locals(syncs[..i] + syncs[i + 1..])
  {
    if i == 0 {
      assert syncs[..0] + syncs[1..] == syncs[1..];
    } else {
      LocalsAt(syncs[1..], i - 1);
      var rest := syncs[1..][..i - 1] + syncs[1..][i..];
      assert syncs[..i] + syncs[i + 1..] == [syncs[0]] + rest;
      Swap(multiset(syncs[0].held), multiset(syncs[i].held), Locals(rest));
    }
  }

  lemma {:induction false} LocalsAppend(syncs: seq<Sync>, y: Sync)
    ensures Locals(syncs + [y]) == Locals(syncs) + multiset(y.held)
  {
    LocalsAt(syncs + [y], |syncs|);
    assert (syncs + [y])[..|syncs|] + (syncs + [y])[|syncs| + 1..] == syncs;
  }

  // ---- every step ----

  lemma StoreKeepsTable(t: seq<Bind>, b: Bind)
    requires TableOk(t)
    ensures TableOk(Stored(t, b))
  {
    if Storable(b) {
      var i := Find(t, b);
      if i < |t| {
        forall k | 0 <= k < |t| && k != i ensures !SameKey(t[k], b) && !SameKey(b, t[k]) {
          assert k < i ==> !SameKey(t[k], t[i]) && !SameKey(t[i], t[k]);
        }
      }
    }
  }

  /** One share of a sum is replaced by another. */
  lemma Replace(o: multiset<Buffer>, t: multiset<Buffer>, l: multiset<Buffer>, r: multiset<Buffer>,
                gone: multiset<Buffer>, added: multiset<Buffer>)
    requires gone <= t
    ensures o + t + l + r - gone + added == o + (t - gone + added) + l + r
  {
  }

  lemma StoreAccounts(s: Sys, b: Bind)
    requires Inv(s)
    ensures Accounted(s.(table := Stored(s.table, b), refs := StoredRefs(s.table, b, s.refs)))
  {
    if !StoreFails(s.table, b) {
      var i := Find(s.table, b);
      if i < |s.table| {
        BufsUpdate(s.table, i, b);
        Replace(s.owned, Bufs(s.table), Locals(s.syncs), s.retired, Held(s.table[i]), Held(b));
      } else {
        BufsAppend(s.table, b);
        Replace(s.owned, Bufs(s.table), Locals(s.syncs), s.retired, multiset{}, Held(b));
        assert s.refs - multiset{} == s.refs && Bufs(s.table) - multiset{} == Bufs(s.table);
      }
    }
  }

  /** A reference that changes its owner. */
  lemma HandOver(owned: multiset<Buffer>, h: multiset<Buffer>, t: multiset<Buffer>, l: multiset<Buffer>, r: multiset<Buffer>)
    ensures owned + (h + t) + l + r == owned + t + l + (r + h)
  {
  }

  lemma ForgetKeepsTable(t: seq<Bind>, surface: nat)
    requires TableOk(t)
    ensures TableOk(Forgotten(t, surface))
  {
    var i := FindSurface(t, surface);
    if i < |t| {
      var u := Forgotten(t, surface);
      forall j, k | 0 <= j < k < |u| ensures !SameKey(u[j], u[k]) && !SameKey(u[k], u[j]) {
        assert u[j] == t[if j < i then j else j + 1] && u[k] == t[if k < i then k else k + 1];
      }
    }
  }

  lemma ForgetAccounts(s: Sys, surface: nat)
    requires Accounted(s)
    ensures Accounted(Next(s, ForgetTake(surface)))
  {
    var i := FindSurface(s.table, surface);
    if i < |s.table| {
      BufsAt(s.table, i);
      HandOver(s.owned, Held(s.table[i]), Bufs(Forgotten(s.table, surface)), Locals(s.syncs), s.retired);
    }
  }

  /** New references for a new owner. */
  lemma AddShare(o: multiset<Buffer>, t: multiset<Buffer>, l: multiset<Buffer>, r: multiset<Buffer>, x: multiset<Buffer>)
    ensures o + t + l + r + x == o + t + (l + x) + r
  {
  }

  lemma CopyAccounts(s: Sys)
    requires Accounted(s)
    ensures Accounted(Next(s, SyncCopy))
  {
    BuffersAreBufs(s.table);
    LocalsAppend(s.syncs, Sync(Buffers(s.table), false));
    AddShare(s.owned, Bufs(s.table), Locals(s.syncs), s.retired, Bufs(s.table));
  }

  /** One buffer less among those that the syncs hold. */
  lemma LocalsRelease(syncs: seq<Sync>, i: nat)
    requires i < |syncs| && syncs[i].held != []
    ensures Locals(syncs) == multiset{syncs[i].held[0]} + Locals(syncs[i := syncs[i].(held := syncs[i].held[1..])])
  {
    var held, next := syncs[i].held, syncs[i := syncs[i].(held := syncs[i].held[1..])];
    LocalsAt(syncs, i);
    LocalsAt(next, i);
    assert next[..i] + next[i + 1..] == syncs[..i] + syncs[i + 1..];
    assert held == [held[0]] + held[1..];
    PlusTwice(multiset{held[0]}, multiset(held[1..]), Locals(syncs[..i] + syncs[i + 1..]));
  }

  lemma DropShare(o: multiset<Buffer>, t: multiset<Buffer>, l: multiset<Buffer>, r: multiset<Buffer>, x: multiset<Buffer>)
    ensures o + t + (x + l) + r - x == o + t + l + r
  {
  }

  lemma ReleaseAccounts(s: Sys, i: nat)
    requires Accounted(s) && Enabled(s, SyncRelease(i))
    ensures Accounted(Next(s, SyncRelease(i)))
  {
    LocalsRelease(s.syncs, i);
    DropShare(s.owned, Bufs(s.table), Locals(Next(s, SyncRelease(i)).syncs), s.retired, multiset{s.syncs[i].held[0]});
  }

  lemma PresentAccounts(s: Sys, i: nat)
    requires Accounted(s) && Enabled(s, SyncPresent(i))
    ensures Accounted(Next(s, SyncPresent(i)))
  {
    var next := Next(s, SyncPresent(i)).syncs;
    LocalsAt(s.syncs, i);
    LocalsAt(next, i);
    assert next[..i] + next[i + 1..] == s.syncs[..i] + s.syncs[i + 1..];
  }

  lemma StepKeeps(s: Sys, e: Step)
    requires Inv(s) && Enabled(s, e)
    ensures Inv(Next(s, e))
  {
    match e {
      case Import(b) => ImportAccounts(s, b);
      case CallerRelease(b) => OwnerReleases(s, b);
      case Store(bind) =>
        StoreKeepsTable(s.table, bind);
        StoreAccounts(s, bind);
      case ForgetTake(surface) =>
        ForgetKeepsTable(s.table, surface);
        ForgetAccounts(s, surface);
      case ForgetRelease(b) => RetiredReleases(s, b);
      case SyncCopy => CopyAccounts(s);
      case SyncPresent(i) => PresentAccounts(s, i);
      case SyncRelease(i) => ReleaseAccounts(s, i);
      case SyncDone(i) => LocalsAt(s.syncs, i);
      case Teardown =>
    }
  }

  lemma ImportAccounts(s: Sys, b: Buffer)
    requires Accounted(s)
    ensures Accounted(Next(s, Import(b)))
  {
  }

  /** One reference less for one of two owners. */
  lemma GiveUp(others: multiset<Buffer>, own: multiset<Buffer>, b: Buffer)
    requires b in own
    ensures others + own - multiset{b} == others + (own - multiset{b})
    ensures own + others - multiset{b} == (own - multiset{b}) + others
  {
  }

  lemma OwnerReleases(s: Sys, b: Buffer)
    requires Accounted(s) && b in s.owned
    ensures Accounted(Next(s, CallerRelease(b)))
  {
    var t, l, r := Bufs(s.table), Locals(s.syncs), s.retired;
    GiveUp(t, s.owned, b);
    GiveUp(l, s.owned + t, b);
    GiveUp(r, s.owned + t + l, b);
  }

  lemma RetiredReleases(s: Sys, b: Buffer)
    requires Accounted(s) && b in s.retired
    ensures Accounted(Next(s, ForgetRelease(b)))
  {
    GiveUp(s.owned + Bufs(s.table) + Locals(s.syncs), s.retired, b);
  }

  // ---- runs ----

  predicate Possible(s: Sys, es: seq<Step>)
    decreases |es|
  {
    es != [] ==> Enabled(s, es[0]) && Possible(Next(s, es[0]), es[1..])
  }

  function Run(s: Sys, es: seq<Step>): Sys
    requires Possible(s, es)
    decreases |es|
  {
    if es == [] then s else Run(Next(s, es[0]), es[1..])
  }

  /** A reference that will be given up later is still counted now: no buffer in use has been freed. */
  predicate AllAlive(s: Sys) {
    && (forall i :: 0 <= i < |s.table| ==> s.table[i].ahb.Some? && s.table[i].ahb.value in s.refs)
    && (forall i, b :: 0 <= i < |s.syncs| && b in s.syncs[i].held ==> b in s.refs)
    && (forall b :: b in s.retired ==> b in s.refs)
  }

  lemma AccountedIsAlive(s: Sys)
    requires Inv(s)
    ensures AllAlive(s)
  {
    forall i | 0 <= i < |s.table| ensures s.table[i].ahb.Some? && s.table[i].ahb.value in s.refs {
      BufsAt(s.table, i);
      assert s.table[i].ahb.value in Held(s.table[i]);
    }
    forall i, b | 0 <= i < |s.syncs| && b in s.syncs[i].held ensures b in s.refs {
      LocalsAt(s.syncs, i);
      assert b in multiset(s.syncs[i].held);
    }
  }

  /**
   In every interleaving the keys of the table stay unique, each slot owns exactly one reference, every
   reference has exactly one owner, and every buffer that a slot, a sync in flight or a pending release
   still uses is alive, even when it has been replaced or forgotten in the meantime.
   */
  lemma {:induction false} InterleavingsAreSafe(s: Sys, es: seq<Step>)
    requires Inv(s) && Possible(s, es)
    ensures Inv(Run(s, es)) && AllAlive(Run(s, es))
    decreases |es|
  {
    if es == [] {
      AccountedIsAlive(s);
    } else {
      StepKeeps(s, es[0]);
      InterleavingsAreSafe(Next(s, es[0]), es[1..]);
    }
  }

  /** When the table has been torn down and nothing is in flight, only the callers' own references are left. */
  lemma TeardownBalances(s: Sys, es: seq<Step>)
    requires Inv(s) && Possible(s, es)
    requires var t := Run(s, es);
             && t.retired == multiset{} && forall i :: 0 <= i < |t.syncs| ==> t.syncs[i].held == []
    ensures Next(Run(s, es), Teardown).refs == Run(s, es).owned
  {
    InterleavingsAreSafe(s, es);
    OnlyOwnersLeft(Run(s, es));
  }

  lemma OnlyOwnersLeft(t: Sys)
    requires Accounted(t) && t.retired == multiset{} && forall i :: 0 <= i < |t.syncs| ==> t.syncs[i].held == []
    ensures Next(t, Teardown).refs == t.owned
  {
    NothingLocal(t.syncs);
    assert t.owned + Bufs(t.table) - Bufs(t.table) == t.owned;
  }

  lemma {:induction false} NothingLocal(syncs: seq<Sync>)
    requires forall i :: 0 <= i < |syncs| ==> syncs[i].held == []
    ensures Locals(syncs) == multiset{}
  {
    if syncs != [] {
      assert forall i :: 0 <= i < |syncs[1..]| ==> syncs[1..][i] == syncs[i + 1];
      NothingLocal(syncs[1..]);
    }
  }

  /** After forget has taken its slot no slot names the surface: one removal is enough because keys are unique. */
  lemma ForgetRemovesSurface(s: Sys, surface: nat)
    requires Inv(s)
    ensures forall i :: 0 <= i < |Next(s, ForgetTake(surface)).table| ==> Next(s, ForgetTake(surface)).table[i].surface != Some(surface)
  {
    var i := FindSurface(s.table, surface);
    if i < |s.table| {
      forall j | i < j < |s.table| ensures s.table[j].surface != Some(surface) {
        assert !SameKey(s.table[i], s.table[j]);
      }
    }
  }

  /** A successful store is found again under its key, with its own buffer. */
  lemma StoreIsFound(s: Sys, b: Bind)
    requires Inv(s) && !StoreFails(s.table, b)
    ensures var t := Stored(s.table, b); Find(t, b) < |t| && t[Find(t, b)] == b
  {
    StoreKeepsTable(s.table, b);
    var t, i := Stored(s.table, b), Find(s.table, b);
    assert i <= |s.table| && t[i] == b;
    assert forall k :: 0 <= k < i ==> t[k] == s.table[k];
    assert SameKey(t[i], b);
  }
}
