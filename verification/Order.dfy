/** Sequences without repetitions, and what filtering does to their order. */
module Order {

  // ---- sequences as ordered sets ----

  predicate Distinct(s: seq<int>) {
    forall i, j :: 0 <= i < j < |s| ==> s[i] != s[j]
  }

  function Keep(s: seq<nat>, keep: set<nat>): seq<nat> {
    if s == [] then []
    else if s[0] in keep then [s[0]] + Keep(s[1..], keep)
    else Keep(s[1..], keep)
  }

  function Drop(s: seq<nat>, drop: set<nat>): seq<nat> {
    if s == [] then []
    else if s[0] in drop then Drop(s[1..], drop)
    else [s[0]] + Drop(s[1..], drop)
  }

  function Reverse(s: seq<nat>): seq<nat> {
    if s == [] then [] else Reverse(s[1..]) + [s[0]]
  }

  function Elements(s: seq<nat>): set<nat> {
    set v | v in s
  }

  lemma {:induction false} KeepMembers(s: seq<nat>, keep: set<nat>, v: nat)
    ensures v in Keep(s, keep) <==> v in s && v in keep
  {
    if s != [] {
      KeepMembers(s[1..], keep, v);
    }
  }

  lemma {:induction false} DropMembers(s: seq<nat>, drop: set<nat>, v: nat)
    ensures v in Drop(s, drop) <==> v in s && v !in drop
  {
    if s != [] {
      DropMembers(s[1..], drop, v);
    }
  }

  lemma {:induction false} KeepConcat(s: seq<nat>, t: seq<nat>, keep: set<nat>)
    ensures Keep(s + t, keep) == Keep(s, keep) + Keep(t, keep)
  {
    if s == [] {
      assert s + t == t;
    } else {
      KeepConcat(s[1..], t, keep);
      assert (s + t)[1..] == s[1..] + t && (s + t)[0] == s[0];
      var head, front, back := [s[0]], Keep(s[1..], keep), Keep(t, keep);
      assert head + (front + back) == (head + front) + back;
    }
  }

  lemma {:induction false} DropConcat(s: seq<nat>, t: seq<nat>, drop: set<nat>)
    ensures Drop(s + t, drop) == Drop(s, drop) + Drop(t, drop)
  {
    if s == [] {
      assert s + t == t;
    } else {
      DropConcat(s[1..], t, drop);
      assert (s + t)[1..] == s[1..] + t && (s + t)[0] == s[0];
      var head, front, back := [s[0]], Drop(s[1..], drop), Drop(t, drop);
      assert head + (front + back) == (head + front) + back;
    }
  }

  lemma {:induction false} DropAgain(s: seq<nat>, a: set<nat>, b: set<nat>)
    ensures Drop(Drop(s, a), b) == Drop(s, a + b)
  {
    if s != [] {
      DropAgain(s[1..], a, b);
    }
  }

  lemma {:induction false} KeepOfDrop(s: seq<nat>, a: set<nat>, b: set<nat>)
    requires a !! b
    ensures Keep(Drop(s, a), b) == Keep(s, b)
  {
    if s != [] {
      KeepOfDrop(s[1..], a, b);
    }
  }

  lemma {:induction false} DropOfKeep(s: seq<nat>, a: set<nat>, b: set<nat>)
    ensures Drop(Keep(s, a), b) == Keep(s, a - b)
  {
    if s != [] {
      DropOfKeep(s[1..], a, b);
    }
  }

  lemma {:induction false} DropNothing(s: seq<nat>, drop: set<nat>)
    requires forall v :: v in s ==> v !in drop
    ensures Drop(s, drop) == s
  {
    if s != [] {
      assert s[0] in s;
      DropNothing(s[1..], drop);
    }
  }

  lemma {:induction false} DropAll(s: seq<nat>, drop: set<nat>)
    requires forall v :: v in s ==> v in drop
    ensures Drop(s, drop) == []
  {
    if s != [] {
      assert s[0] in s;
      DropAll(s[1..], drop);
    }
  }

  lemma {:induction false} ReverseMembers(s: seq<nat>, v: nat)
    ensures v in Reverse(s) <==> v in s
  {
    if s != [] {
      ReverseMembers(s[1..], v);
    }
  }

  lemma {:induction false} ReverseConcat(s: seq<nat>, t: seq<nat>)
    ensures Reverse(s + t) == Reverse(t) + Reverse(s)
  {
    if s == [] {
      assert s + t == t;
    } else {
      assert (s + t)[1..] == s[1..] + t;
      ReverseConcat(s[1..], t);
    }
  }

  lemma {:induction false} ReverseTwice(s: seq<nat>)
    ensures Reverse(Reverse(s)) == s
  {
    if s != [] {
      ReverseTwice(s[1..]);
      ReverseConcat(Reverse(s[1..]), [s[0]]);
      assert Reverse([s[0]]) == [s[0]];
    }
  }

  lemma {:induction false} KeepDistinct(s: seq<nat>, keep: set<nat>)
    requires Distinct(s)
    ensures Distinct(Keep(s, keep)) && Distinct(Drop(s, keep))
  {
    if s != [] {
      KeepDistinct(s[1..], keep);
      KeepMembers(s[1..], keep, s[0]);
      DropMembers(s[1..], keep, s[0]);
      forall v | v in s[1..] ensures v != s[0] {
        var k :| 0 <= k < |s[1..]| && s[1..][k] == v;
        assert s[k + 1] == v;
      }
    }
  }

  lemma {:induction false} ReverseDistinct(s: seq<nat>)
    requires Distinct(s)
    ensures Distinct(Reverse(s))
  {
    if s != [] {
      ReverseDistinct(s[1..]);
      forall v | v in Reverse(s[1..]) ensures v != s[0] {
        ReverseMembers(s[1..], v);
        var k :| 0 <= k < |s[1..]| && s[1..][k] == v;
        assert s[k + 1] == v;
      }
      assert forall k :: 0 <= k < |Reverse(s[1..])| ==> Reverse(s[1..])[k] in Reverse(s[1..]);
    }
  }

  // ---- relative order ----

  /** a occurs somewhere before b. */
  predicate Before(s: seq<nat>, a: nat, b: nat) {
    s != [] && ((s[0] == a && b in s[1..]) || Before(s[1..], a, b))
  }

  lemma {:induction false} BeforeMembers(s: seq<nat>, a: nat, b: nat)
    ensures Before(s, a, b) ==> a in s && b in s
  {
    if s != [] {
      BeforeMembers(s[1..], a, b);
      assert forall v :: v in s[1..] ==> v in s;
    }
  }

  lemma {:induction false} BeforeConcat(s: seq<nat>, t: seq<nat>, a: nat, b: nat)
    ensures Before(s + t, a, b) <==> Before(s, a, b) || Before(t, a, b) || (a in s && b in t)
  {
    if s == [] {
      assert s + t == t;
    } else {
      BeforeConcat(s[1..], t, a, b);
      assert (s + t)[1..] == s[1..] + t;
      assert forall v :: v in s <==> v == s[0] || v in s[1..];
    }
  }

  lemma {:induction false} BeforeInDrop(s: seq<nat>, drop: set<nat>, a: nat, b: nat)
    ensures Before(Drop(s, drop), a, b) ==> Before(s, a, b)
  {
    if s != [] {
      BeforeInDrop(s[1..], drop, a, b);
      DropMembers(s[1..], drop, b);
    }
  }

  lemma DistinctConcat(s: seq<nat>, t: seq<nat>)
    requires Distinct(s) && Distinct(t) && forall v :: v in s ==> v !in t
    ensures Distinct(s + t)
  {
    forall i, j | 0 <= i < j < |s + t| ensures (s + t)[i] != (s + t)[j] {
      if i < |s| && |s| <= j {
        assert s[i] in s && t[j - |s|] in t;
      }
    }
  }

  lemma TailDistinct(s: seq<nat>)
    requires s != [] && Distinct(s)
    ensures Distinct(s[1..]) && s[0] !in s[1..]
  {
    assert forall k :: 0 <= k < |s[1..]| ==> s[1..][k] == s[k + 1];
  }

  lemma {:induction false} CountDistinct(s: seq<nat>, v: nat)
    requires Distinct(s)
    ensures multiset(s)[v] == if v in s then 1 else 0
  {
    if s != [] {
      TailDistinct(s);
      CountDistinct(s[1..], v);
      assert s == [s[0]] + s[1..];
    }
  }

  /** Two distinct sequences with the same elements are permutations of each other. */
  lemma SameElements(s: seq<nat>, t: seq<nat>)
    requires Distinct(s) && Distinct(t) && forall v :: v in s <==> v in t
    ensures multiset(s) == multiset(t)
  {
    forall v ensures multiset(s)[v] == multiset(t)[v] {
      CountDistinct(s, v);
      CountDistinct(t, v);
    }
  }

  lemma {:induction false} BeforeInKeep(s: seq<nat>, keep: set<nat>, a: nat, b: nat)
    ensures Before(Keep(s, keep), a, b) ==> Before(s, a, b)
  {
    if s != [] {
      BeforeInKeep(s[1..], keep, a, b);
      KeepMembers(s[1..], keep, b);
    }
  }

  lemma {:induction false} IndexBefore(s: seq<nat>, i: nat, j: nat)
    requires i < j < |s|
    ensures Before(s, s[i], s[j])
  {
    if i == 0 {
      assert s[1..][j - 1] == s[j];
    } else {
      IndexBefore(s[1..], i - 1, j - 1);
    }
  }

  lemma {:induction false} BeforeIndex(s: seq<nat>, a: nat, b: nat) returns (i: nat, j: nat)
    requires Before(s, a, b)
    ensures i < j < |s| && s[i] == a && s[j] == b
  {
    if s[0] == a && b in s[1..] {
      var k :| 0 <= k < |s[1..]| && s[1..][k] == b;
      i, j := 0, k + 1;
    } else {
      i, j := BeforeIndex(s[1..], a, b);
      i, j := i + 1, j + 1;
    }
  }

  lemma BeforeTransitive(s: seq<nat>, a: nat, b: nat, c: nat)
    requires Distinct(s) && Before(s, a, b) && Before(s, b, c)
    ensures Before(s, a, c)
  {
    var i, j := BeforeIndex(s, a, b);
    var k, l := BeforeIndex(s, b, c);
    assert j == k;
    IndexBefore(s, i, l);
  }

  lemma BeforeTotal(s: seq<nat>, a: nat, b: nat)
    requires a in s && b in s && a != b
    ensures Before(s, a, b) || Before(s, b, a)
  {
    var i :| 0 <= i < |s| && s[i] == a;
    var j :| 0 <= j < |s| && s[j] == b;
    if i < j {
      IndexBefore(s, i, j);
    } else {
      IndexBefore(s, j, i);
    }
  }

  lemma {:induction false} KeepOfKeep(s: seq<nat>, a: set<nat>, b: set<nat>)
    ensures Keep(Keep(s, a), b) == Keep(s, a * b)
  {
    if s != [] {
      KeepOfKeep(s[1..], a, b);
    }
  }

  lemma {:induction false} KeepNothing(s: seq<nat>, keep: set<nat>)
    requires forall v :: v in s ==> v !in keep
    ensures Keep(s, keep) == []
  {
    if s != [] {
      assert s[0] in s;
      KeepNothing(s[1..], keep);
    }
  }

  /** If nothing outside a comes before something in a, the list is the a-part followed by the rest. */
  lemma {:induction false} Split(s: seq<nat>, a: set<nat>)
    requires forall u, v :: u in s && v in s && u !in a && v in a ==> !Before(s, u, v)
    ensures s == Keep(s, a) + Drop(s, a)
  {
    if s != [] {
      assert forall v :: v in s[1..] ==> v in s;
      if s[0] in a {
        Split(s[1..], a);
      } else {
        forall v | v in s ensures v !in a {
          if v != s[0] {
            assert v in s[1..];
            assert Before(s, s[0], v);
            assert s[0] in s;
          }
        }
        KeepNothing(s, a);
        DropNothing(s, a);
      }
    }
  }

  /** Two parts of a list, one wholly before the other. */
  lemma KeepUnion(s: seq<nat>, a: set<nat>, b: set<nat>)
    requires a !! b
    requires forall u, v :: u in s && v in s && u in b && v in a ==> !Before(s, u, v)
    ensures Keep(s, a + b) == Keep(s, a) + Keep(s, b)
  {
    var w := Keep(s, a + b);
    forall u, v | u in w && v in w && u !in a && v in a ensures !Before(w, u, v) {
      KeepMembers(s, a + b, u);
      KeepMembers(s, a + b, v);
      BeforeInKeep(s, a + b, u, v);
    }
    Split(w, a);
    KeepOfKeep(s, a + b, a);
    assert (a + b) * a == a;
    DropOfKeep(s, a + b, a);
    assert a + b - a == b;
  }

  lemma {:induction false} KeepSingle(s: seq<nat>, v: nat)
    requires Distinct(s) && v in s
    ensures Keep(s, {v}) == [v]
  {
    TailDistinct(s);
    if s[0] == v {
      KeepNothing(s[1..], {v});
    } else {
      assert v in s[1..];
      KeepSingle(s[1..], v);
    }
  }

  lemma {:induction false} KeepDropped(s: seq<nat>, drop: set<nat>)
    ensures Keep(s, Elements(Drop(s, drop))) == Drop(s, drop)
  {
    forall v ensures v in Elements(Drop(s, drop)) <==> v in s && v !in drop {
      DropMembers(s, drop, v);
    }
    KeepAsDrop(s, Elements(Drop(s, drop)), drop);
  }

  lemma {:induction false} KeepAsDrop(s: seq<nat>, keep: set<nat>, drop: set<nat>)
    requires forall v :: v in s ==> (v in keep <==> v !in drop)
    ensures Keep(s, keep) == Drop(s, drop)
  {
    if s != [] {
      assert s[0] in s;
      KeepAsDrop(s[1..], keep, drop);
    }
  }
}
