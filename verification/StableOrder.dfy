/** Stable sorting of labels by timestamp, and the ordered multimap that computes it. */
module StableOrder {
  import opened Messages

  ghost predicate Sorted(s: seq<Label>) {
    forall i, j :: 0 <= i < j < |s| ==> s[i].ts <= s[j].ts
  }

  /** The labels carrying timestamp `t`, in the order they occur. */
  function At(s: seq<Label>, t: nat): seq<Label> {
    if s == [] then [] else (if s[0].ts == t then [s[0]] else []) + At(s[1..], t)
  }

  /** `out` is `input` sorted by timestamp with equal timestamps kept in input order. */
  ghost predicate IsStableSort(out: seq<Label>, input: seq<Label>) {
    Sorted(out) && forall t: nat :: At(out, t) == At(input, t)
  }

  lemma Assoc<T>(x: seq<T>, y: seq<T>, z: seq<T>)
    ensures x + (y + z) == (x + y) + z
  {
  }

  lemma {:induction false} AtConcat(a: seq<Label>, b: seq<Label>, t: nat)
    ensures At(a + b, t) == At(a, t) + At(b, t)
  {
    if a == [] {
      assert a + b == b;
    } else {
      assert (a + b)[1..] == a[1..] + b;
      AtConcat(a[1..], b, t);
      Assoc(if a[0].ts == t then [a[0]] else [], At(a[1..], t), At(b, t));
    }
  }

  lemma {:induction false} AtEmptyIff(s: seq<Label>, t: nat)
    ensures At(s, t) == [] <==> forall i :: 0 <= i < |s| ==> s[i].ts != t
  {
    if s != [] {
      AtEmptyIff(s[1..], t);
      assert forall i :: 1 <= i < |s| ==> s[i] == s[1..][i - 1];
    }
  }

  lemma OccursAt(s: seq<Label>, t: nat)
    requires At(s, t) != [] && Sorted(s)
    ensures s != [] && s[0].ts <= t
  {
    AtEmptyIff(s, t);
    var i :| 0 <= i < |s| && s[i].ts == t;
    assert i == 0 || s[0].ts <= s[i].ts;
  }

  /** The stable sort of a sequence is unique, so `IsStableSort` pins its output down. */
  lemma {:induction false} StableSortUnique(a: seq<Label>, b: seq<Label>)
    requires Sorted(a) && Sorted(b)
    requires forall t: nat :: At(a, t) == At(b, t)
    ensures a == b
  {
    if a == [] {
      if b != [] {
        assert At(b, b[0].ts)[0] == b[0];
        OccursAt(a, b[0].ts);
      }
    } else {
      assert At(a, a[0].ts)[0] == a[0];
      OccursAt(b, a[0].ts);
      assert At(b, b[0].ts)[0] == b[0];
      OccursAt(a, b[0].ts);
      assert a[0] == b[0];
      forall t: nat
        ensures At(a[1..], t) == At(b[1..], t)
      {
        var h := if a[0].ts == t then [a[0]] else [];
        assert At(a, t) == h + At(a[1..], t) && At(b, t) == h + At(b[1..], t);
        assert At(a[1..], t) == At(a, t)[|h|..] && At(b[1..], t) == At(b, t)[|h|..];
      }
      StableSortUnique(a[1..], b[1..]);
    }
  }

  /** The first position whose timestamp exceeds `t`. */
  function UpperBound(s: seq<Label>, t: nat): (k: nat)
    ensures k <= |s|
    ensures forall i :: 0 <= i < k ==> s[i].ts <= t
    ensures k < |s| ==> s[k].ts > t
  {
    if s == [] || s[0].ts > t then 0 else 1 + UpperBound(s[1..], t)
  }

  /** `multimap::insert` (C++11): equal keys stay in insertion order. */
  function Insert(s: seq<Label>, l: Label): seq<Label> {
    var k := UpperBound(s, l.ts);
    s[..k] + [l] + s[k..]
  }

  function InsertAll(s: seq<Label>, ls: seq<Label>): seq<Label> {
    if ls == [] then s else Insert(InsertAll(s, ls[..|ls| - 1]), ls[|ls| - 1])
  }

  function Sort(s: seq<Label>): seq<Label> {
    InsertAll([], s)
  }

  lemma InsertMultiset(s: seq<Label>, l: Label)
    ensures multiset(Insert(s, l)) == multiset(s) + multiset{l}
  {
    var k := UpperBound(s, l.ts);
    assert s == s[..k] + s[k..];
  }

  lemma AddLast(a: multiset<Label>, b: multiset<Label>, c: multiset<Label>)
    ensures (a + b) + c == a + (b + c)
  {
  }

  lemma {:induction false} InsertAllMultiset(s: seq<Label>, ls: seq<Label>)
    ensures multiset(InsertAll(s, ls)) == multiset(s) + multiset(ls)
  {
    if ls != [] {
      hide Insert;
      var init, last := ls[..|ls| - 1], ls[|ls| - 1];
      InsertAllMultiset(s, init);
      InsertMultiset(InsertAll(s, init), last);
      assert ls == init + [last];
      AddLast(multiset(s), multiset(init), multiset{last});
    }
  }

  lemma AtMiddle(lo: seq<Label>, l: Label, hi: seq<Label>, t: nat)
    requires l.ts == t ==> At(hi, t) == []
    ensures At(lo + [l] + hi, t) == At(lo + hi, t) + At([l], t)
  {
    AtConcat(lo, hi, t);
    AtConcat(lo + [l], hi, t);
    AtConcat(lo, [l], t);
    if l.ts == t {
      assert At(lo, t) + At([l], t) + [] == (At(lo, t) + []) + At([l], t);
    } else {
      assert At([l], t) == [];
    }
  }

  lemma AboveUpperBound(s: seq<Label>, t: nat)
    requires Sorted(s)
    ensures At(s[UpperBound(s, t)..], t) == []
  {
    var k := UpperBound(s, t);
    AtEmptyIff(s[k..], t);
    forall i | 0 <= i < |s[k..]|
      ensures s[k..][i].ts != t
    {
      assert i == 0 || s[k].ts <= s[k + i].ts;
    }
  }

  lemma InsertAt(s: seq<Label>, l: Label, t: nat)
    requires Sorted(s)
    ensures At(Insert(s, l), t) == At(s, t) + At([l], t)
  {
    AboveUpperBound(s, l.ts);
    var k := UpperBound(s, l.ts);
    AtMiddle(s[..k], l, s[k..], t);
    assert s == s[..k] + s[k..];
  }

  lemma InsertSorted(s: seq<Label>, l: Label)
    requires Sorted(s)
    ensures Sorted(Insert(s, l))
  {
    var k, r := UpperBound(s, l.ts), Insert(s, l);
    assert forall i :: 0 <= i < |r| ==> r[i] == if i < k then s[i] else if i == k then l else s[i - 1];
  }

  lemma InsertIsStable(s: seq<Label>, l: Label)
    requires Sorted(s)
    ensures Sorted(Insert(s, l))
    ensures forall t: nat :: At(Insert(s, l), t) == At(s, t) + At([l], t)
  {
    InsertSorted(s, l);
    forall t: nat
      ensures At(Insert(s, l), t) == At(s, t) + At([l], t)
    {
      InsertAt(s, l, t);
    }
  }

  lemma {:induction false} InsertAllIsStable(s: seq<Label>, ls: seq<Label>)
    requires Sorted(s)
    ensures Sorted(InsertAll(s, ls))
    ensures forall t: nat :: At(InsertAll(s, ls), t) == At(s, t) + At(ls, t)
  {
    if ls != [] {
      var init, last := ls[..|ls| - 1], ls[|ls| - 1];
      InsertAllIsStable(s, init);
      InsertIsStable(InsertAll(s, init), last);
      assert ls == init + [last];
      forall t: nat
        ensures At(InsertAll(s, ls), t) == At(s, t) + At(ls, t)
      {
        AtConcat(init, [last], t);
      }
    }
  }

  /** The multimap, filled in arrival order, is the stable sort of its input. */
  lemma SortIsStableSort(s: seq<Label>)
    ensures IsStableSort(Sort(s), s)
    ensures multiset(Sort(s)) == multiset(s)
  {
    InsertAllIsStable([], s);
    InsertAllMultiset([], s);
    assert multiset{} + multiset(s) == multiset(s);
  }

  lemma {:induction false} InsertAllConcat(s: seq<Label>, a: seq<Label>, b: seq<Label>)
    ensures InsertAll(s, a + b) == InsertAll(InsertAll(s, a), b)
  {
    if b == [] {
      assert a + b == a;
    } else {
      assert (a + b)[..|a + b| - 1] == a + b[..|b| - 1];
      InsertAllConcat(s, a, b[..|b| - 1]);
    }
  }

  /** None of `ls` is below the last element of `log`. */
  ghost predicate NotBelow(log: seq<Label>, ls: seq<Label>) {
    log == [] || forall i :: 0 <= i < |ls| ==> log[|log| - 1].ts <= ls[i].ts
  }

  lemma SortedConcat(a: seq<Label>, b: seq<Label>)
    ensures Sorted(a + b) <==> Sorted(a) && Sorted(b) && NotBelow(a, b)
  {
    var c := a + b;
    assert forall i :: 0 <= i < |a| ==> c[i] == a[i];
    assert forall i :: 0 <= i < |b| ==> c[|a| + i] == b[i];
    if Sorted(c) && a != [] {
      forall i | 0 <= i < |b|
        ensures a[|a| - 1].ts <= b[i].ts
      {
        assert c[|a| - 1].ts <= c[|a| + i].ts;
      }
    }
    if Sorted(a) && Sorted(b) && NotBelow(a, b) {
      forall i, j | 0 <= i < j < |c|
        ensures c[i].ts <= c[j].ts
      {
        if i < |a| <= j {
          assert a[i].ts <= a[|a| - 1].ts <= b[j - |a|].ts;
        } else if |a| <= i {
          assert b[i - |a|].ts <= b[j - |a|].ts;
        }
      }
    }
  }

  /** `NotBelow` only depends on which labels there are, not on their order. */
  lemma NotBelowMultiset(log: seq<Label>, a: seq<Label>, b: seq<Label>, c: seq<Label>)
    requires multiset(a) == multiset(b) + multiset(c)
    ensures NotBelow(log, a) <==> NotBelow(log, b) && NotBelow(log, c)
  {
    assert forall x :: x in a <==> x in multiset(a);
    assert forall x :: x in a <==> x in b || x in c;
    if NotBelow(log, b) && NotBelow(log, c) && log != [] {
      forall i | 0 <= i < |a|
        ensures log[|log| - 1].ts <= a[i].ts
      {
        assert a[i] in a;
      }
    }
    if NotBelow(log, a) && log != [] {
      forall i | 0 <= i < |b|
        ensures log[|log| - 1].ts <= b[i].ts
      {
        assert b[i] in a;
      }
      forall i | 0 <= i < |c|
        ensures log[|log| - 1].ts <= c[i].ts
      {
        assert c[i] in a;
      }
    }
  }

  /** Inserting into the unemitted rest agrees with re-sorting everything
      exactly when no new label falls below what was already emitted. */
  lemma InsertBehindLog(log: seq<Label>, store: seq<Label>, all: seq<Label>, ls: seq<Label>)
    requires log + store == Sort(all)
    ensures log + InsertAll(store, ls) == Sort(all + ls) <==> NotBelow(log, ls)
  {
    SortIsStableSort(all);
    SortIsStableSort(all + ls);
    SortedConcat(log, store);
    assert forall t: nat :: At(log + store, t) == At(all, t);
    InsertAllIsStable(store, ls);
    InsertAllMultiset(store, ls);
    var store' := InsertAll(store, ls);
    NotBelowMultiset(log, store', store, ls);
    SortedConcat(log, store');
    if NotBelow(log, ls) {
      forall t: nat
        ensures At(log + store', t) == At(Sort(all + ls), t)
      {
        AtLogStore(log, store, all, ls, t);
      }
      StableSortUnique(log + store', Sort(all + ls));
    }
  }

  lemma AtLogStore(log: seq<Label>, store: seq<Label>, all: seq<Label>, ls: seq<Label>, t: nat)
    requires Sorted(store)
    requires At(log + store, t) == At(all, t)
    ensures At(log + InsertAll(store, ls), t) == At(Sort(all + ls), t)
  {
    AtConcat(log, store, t);
    AtConcat(all, ls, t);
    Assoc(At(log, t), At(store, t), At(ls, t));
    AtConcat(log, InsertAll(store, ls), t);
    assert At(InsertAll(store, ls), t) == At(store, t) + At(ls, t) by {
      InsertAllIsStable(store, ls);
    }
    assert At(Sort(all + ls), t) == At(all + ls, t) by {
      SortIsStableSort(all + ls);
    }
  }
}
