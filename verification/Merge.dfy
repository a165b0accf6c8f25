/** What the merged message sequence of several connections inherits from each of them. */
module Merge {
  import opened Messages
  import opened StableOrder
  import opened Stabilizer
  import opened Clients

  // ------------------------------------------------------------- the protocol

  /** Every partition sends on one connection only. */
  ghost predicate Homed(home: int -> nat, ss: seq<Sourced>) {
    forall i :: 0 <= i < |ss| ==> ss[i].client == home(ss[i].message.partition)
  }

  /** A partition's heartbeat depends on its own connection only. */
  lemma {:induction false} TableAtHome(n: int, home: int -> nat, ss: seq<Sourced>, p: int)
    requires Homed(home, ss)
    ensures var all, own := Table(n, Merged(ss)), Table(n, Share(home(p), ss));
            (p in all <==> p in own) && (p in all ==> all[p] == own[p])
  {
    if ss != [] {
      var init, last := ss[..|ss| - 1], ss[|ss| - 1];
      TableAtHome(n, home, init, p);
      assert Merged(ss)[..|ss| - 1] == Merged(init);
      if last.client == home(p) {
        assert Share(home(p), ss)[..|Share(home(p), ss)| - 1] == Share(home(p), init);
      } else {
        assert Share(home(p), ss) == Share(home(p), init);
      }
    }
  }

  lemma ShareUpTo(ss: seq<Sourced>, i: nat)
    requires i < |ss|
    ensures var c := ss[i].client;
            var k := |Share(c, ss[..i])|;
            k < |Share(c, ss)| && Share(c, ss)[..k] == Share(c, ss[..i]) && Share(c, ss)[k] == ss[i].message
  {
    var c := ss[i].client;
    assert ss == ss[..i + 1] + ss[i + 1..];
    ShareConcat(c, ss[..i + 1], ss[i + 1..]);
    assert ss[..i + 1][..i] == ss[..i];
  }

  /** Partitions that keep the protocol on their own connections keep it together, for every
      interleaving of the connections. */
  lemma MergedProtocol(n: int, home: int -> nat, ss: seq<Sourced>)
    requires Homed(home, ss) && forall c :: Protocol(n, Share(c, ss))
    ensures Protocol(n, Merged(ss))
  {
    hide Table;
    var ms := Merged(ss);
    forall i | 0 <= i < |ms|
      ensures FollowsProtocol(Table(n, ms[..i]), ms[i])
    {
      var m, c := ss[i].message, ss[i].client;
      var own, k := Share(c, ss), |Share(c, ss[..i])|;
      ShareUpTo(ss, i);
      assert Protocol(n, own);
      assert FollowsProtocol(Table(n, own[..k]), own[k]);
      TableAtHome(n, home, ss[..i], m.partition);
      assert Merged(ss[..i]) == ms[..i];
    }
  }

  // --------------------------------------------- dropping the first messages

  /** Under the protocol the table has the configured partitions, and a table that missed the
      first messages lags behind. */
  lemma {:induction false} TableLags(n: int, ms: seq<Message>, k: nat, p: int)
    requires Protocol(n, ms) && k <= |ms|
    ensures p in Table(n, ms) <==> p in InitTable(n)
    ensures p in Table(n, ms[k..]) <==> p in InitTable(n)
    ensures p in InitTable(n) ==> Table(n, ms[k..])[p] <= Table(n, ms)[p]
  {
    if ms != [] {
      hide Protocol;
      var init := ms[..|ms| - 1];
      LastFollows(n, ms, |ms| - 1);
      if k < |ms| {
        TableLags(n, init, k, p);
        assert ms[k..][..|ms[k..]| - 1] == init[k..];
      } else {
        TableLags(n, init, k - 1, p);
      }
    }
  }

  lemma LastFollows(n: int, ms: seq<Message>, k: nat)
    requires Protocol(n, ms) && k < |ms|
    ensures Protocol(n, ms[..k]) && FollowsProtocol(Table(n, ms[..k]), ms[k])
  {
    ProtocolPrefix(n, ms, k);
  }

  lemma StillFollows(n: int, ms: seq<Message>, k: nat, i: nat)
    requires Protocol(n, ms) && k <= i < |ms|
    ensures FollowsProtocol(Table(n, ms[k..i]), ms[i])
  {
    hide Table, Protocol;
    LastFollows(n, ms, i);
    TableLags(n, ms[..i], k, ms[i].partition);
    assert ms[..i][k..] == ms[k..i];
  }

  /** Ignoring the first messages does not break the protocol. */
  lemma ProtocolDrop(n: int, ms: seq<Message>, k: nat)
    requires Protocol(n, ms) && k <= |ms|
    ensures Protocol(n, ms[k..])
  {
    hide Table, FollowsProtocol;
    var rest := ms[k..];
    forall i | 0 <= i < |rest|
      ensures FollowsProtocol(Table(n, rest[..i]), rest[i])
    {
      StillFollows(n, ms, k, k + i);
      assert ms[k..k + i] == rest[..i];
    }
  }

  // ------------------------------------------ what the interleaving cannot change

  /** The same messages from every client, merged in any order. */
  ghost predicate SameShares(ss: seq<Sourced>, tt: seq<Sourced>) {
    forall c :: Share(c, ss) == Share(c, tt)
  }

  lemma {:induction false} AllLabelsConcat(a: seq<Message>, b: seq<Message>)
    ensures AllLabels(a + b) == AllLabels(a) + AllLabels(b)
  {
    if b == [] {
      assert a + b == a;
    } else {
      assert (a + b)[..|a + b| - 1] == a + b[..|b| - 1];
      AllLabelsConcat(a, b[..|b| - 1]);
    }
  }

  lemma {:induction false} LastOfClient(c: nat, ss: seq<Sourced>) returns (j: nat)
    requires Share(c, ss) != []
    ensures j < |ss| && ss[j].client == c && Share(c, ss[j + 1..]) == []
    ensures Share(c, ss) == Share(c, ss[..j]) + [ss[j].message]
  {
    assert ss != [];
    hide Share;
    var n := |ss| - 1;
    ShareSnoc(c, ss, n);
    if ss[n].client == c {
      j := n;
      NoShare(c);
      assert ss[j + 1..] == [];
    } else {
      j := LastOfClient(c, ss[..n]);
      assert ss[..n][..j] == ss[..j];
      TailShare(c, ss, j, n);
    }
  }

  lemma TailShare(c: nat, ss: seq<Sourced>, j: nat, n: nat)
    requires j < n && |ss| == n + 1 && Share(c, ss[..n][j + 1..]) == [] && ss[n].client != c
    ensures Share(c, ss[j + 1..]) == []
  {
    hide Share;
    assert ss[j + 1..] == ss[..n][j + 1..] + [ss[n]];
    ShareConcat(c, ss[..n][j + 1..], [ss[n]]);
    ShareOne(c, ss[n]);
  }

  lemma NoShare(c: nat)
    ensures Share(c, []) == []
  {
  }

  lemma Slip<T>(a: seq<T>, s: seq<T>, b: seq<T>)
    requires s == [] || b == []
    ensures a + (s + b) == (a + b) + s
  {
  }

  /** Without the last message of its client. */
  lemma ShareWithout(ss: seq<Sourced>, j: nat, d: nat)
    requires j < |ss| && Share(ss[j].client, ss[j + 1..]) == []
    ensures Share(d, ss) == Share(d, ss[..j] + ss[j + 1..]) + if d == ss[j].client then [ss[j].message] else []
  {
    hide Share;
    var a, s, b := ss[..j], ss[j], ss[j + 1..];
    assert ss == a + ([s] + b);
    ShareConcat(d, a, [s] + b);
    ShareConcat(d, [s], b);
    ShareConcat(d, a, b);
    ShareOne(d, s);
    Slip(Share(d, a), Share(d, [s]), Share(d, b));
  }

  lemma LabelsWithout(ss: seq<Sourced>, j: nat)
    requires j < |ss|
    ensures multiset(AllLabels(Merged(ss)))
            == multiset(AllLabels(Merged(ss[..j] + ss[j + 1..]))) + multiset(ss[j].message.labels)
  {
    var a, m, b := Merged(ss[..j]), ss[j].message, Merged(ss[j + 1..]);
    assert Merged(ss) == a + ([m] + b);
    assert Merged(ss[..j] + ss[j + 1..]) == a + b;
    AllLabelsConcat(a, [m] + b);
    AllLabelsConcat([m], b);
    AllLabelsConcat(a, b);
    assert [m][..0] == [];
    assert AllLabels([m]) == m.labels;
  }

  lemma DropLast<T>(a: seq<T>, x: T, b: seq<T>, y: T)
    requires a + [x] == b + [y]
    ensures a == b && x == y
  {
    assert a == (a + [x])[..|a + [x]| - 1] && b == (b + [y])[..|b + [y]| - 1];
    assert x == (a + [x])[|a + [x]| - 1] && y == (b + [y])[|b + [y]| - 1];
  }

  lemma ShareMember(c: nat, ss: seq<Sourced>, k: nat) returns (i: nat)
    requires k < |Share(c, ss)|
    ensures i < |ss| && ss[i] == Sourced(c, Share(c, ss)[k])
  {
    var n := |ss| - 1;
    if k < |Share(c, ss[..n])| {
      i := ShareMember(c, ss[..n], k);
    } else {
      i := n;
    }
  }

  lemma SameElements(ss: seq<Sourced>, tt: seq<Sourced>, j: nat) returns (i: nat)
    requires SameShares(ss, tt) && j < |tt|
    ensures i < |ss| && ss[i] == tt[j]
  {
    ShareUpTo(tt, j);
    i := ShareMember(tt[j].client, ss, |Share(tt[j].client, tt[..j])|);
  }

  lemma NoShares(tt: seq<Sourced>)
    requires SameShares([], tt)
    ensures tt == []
  {
    assert tt != [] ==> Share(tt[|tt| - 1].client, tt) != Share(tt[|tt| - 1].client, []);
  }

  /** The last message of one merge, found and taken out of another. */
  lemma TakeOut(ss: seq<Sourced>, tt: seq<Sourced>) returns (j: nat)
    requires SameShares(ss, tt) && ss != []
    ensures j < |tt| && tt[j] == ss[|ss| - 1] && Share(tt[j].client, tt[j + 1..]) == []
    ensures SameShares(ss[..|ss| - 1], tt[..j] + tt[j + 1..])
  {
    var n := |ss| - 1;
    var c := ss[n].client;
    ShareSnoc(c, ss, n);
    j := LastOfClient(c, tt);
    DropLast(Share(c, ss[..n]), ss[n].message, Share(c, tt[..j]), tt[j].message);
    forall d
      ensures Share(d, ss[..n]) == Share(d, tt[..j] + tt[j + 1..])
    {
      ShareSnoc(d, ss, n);
      ShareWithout(tt, j, d);
      assert Share(d, ss) == Share(d, tt);
      if d == c {
        DropLast(Share(d, ss[..n]), ss[n].message, Share(d, tt[..j] + tt[j + 1..]), tt[j].message);
      } else {
        assert Share(d, tt[..j] + tt[j + 1..]) + [] == Share(d, tt[..j] + tt[j + 1..]);
      }
    }
  }

  /** The labels received do not depend on the interleaving. */
  lemma {:induction false} SharesFixLabels(ss: seq<Sourced>, tt: seq<Sourced>)
    requires SameShares(ss, tt)
    ensures |ss| == |tt|
    ensures multiset(AllLabels(Merged(ss))) == multiset(AllLabels(Merged(tt)))
  {
    hide AllLabels, Share, SameShares;
    if ss == [] {
      NoShares(tt);
    } else {
      var n := |ss| - 1;
      var j := TakeOut(ss, tt);
      SharesFixLabels(ss[..n], tt[..j] + tt[j + 1..]);
      LabelsWithout(ss, n);
      assert ss[..n] + ss[n + 1..] == ss[..n];
      LabelsWithout(tt, j);
    }
  }

  lemma HomedToo(home: int -> nat, ss: seq<Sourced>, tt: seq<Sourced>)
    requires SameShares(ss, tt) && Homed(home, ss)
    ensures Homed(home, tt)
  {
    hide SameShares;
    forall j | 0 <= j < |tt|
      ensures tt[j].client == home(tt[j].message.partition)
    {
      var i := SameElements(ss, tt, j);
    }
  }

  /** Every client lost equally many messages with the first `k`. */
  ghost predicate SameLoss(ss: seq<Sourced>, tt: seq<Sourced>, k: nat)
    requires k <= |ss| && k <= |tt|
  {
    forall d :: |Share(d, ss[..k])| == |Share(d, tt[..k])|
  }

  /** After the first `k` messages are lost, the same messages count if and only if every client
      lost equally many. */
  lemma SameLossIff(ss: seq<Sourced>, tt: seq<Sourced>, k: nat)
    requires SameShares(ss, tt) && k <= |ss| && k <= |tt|
    ensures SameShares(ss[k..], tt[k..]) <==> SameLoss(ss, tt, k)
  {
    hide Share;
    forall d
      ensures Share(d, ss[k..]) == Share(d, tt[k..]) <==> |Share(d, ss[..k])| == |Share(d, tt[..k])|
    {
      assert Share(d, ss) == Share(d, tt);
      ShareSplit(ss, k, d);
      ShareSplit(tt, k, d);
    }
    if SameShares(ss[k..], tt[k..]) {
      forall d
        ensures |Share(d, ss[..k])| == |Share(d, tt[..k])|
      {
        assert Share(d, ss[k..]) == Share(d, tt[k..]);
      }
    }
    if SameLoss(ss, tt, k) {
      forall d
        ensures Share(d, ss[k..]) == Share(d, tt[k..])
      {
        assert |Share(d, ss[..k])| == |Share(d, tt[..k])|;
      }
    }
  }

  lemma ShareSplit(ss: seq<Sourced>, k: nat, d: nat)
    requires k <= |ss|
    ensures var lost := |Share(d, ss[..k])|;
            lost <= |Share(d, ss)| && Share(d, ss[k..]) == Share(d, ss)[lost..]
            && |Share(d, ss)| == lost + |Share(d, ss[k..])|
  {
    hide Share;
    assert ss == ss[..k] + ss[k..];
    ShareConcat(d, ss[..k], ss[k..]);
    assert (Share(d, ss[..k]) + Share(d, ss[k..]))[|Share(d, ss[..k])|..] == Share(d, ss[k..]);
  }

  /** Nor does the heartbeat table. */
  lemma SharesFixTable(n: int, home: int -> nat, ss: seq<Sourced>, tt: seq<Sourced>)
    requires Homed(home, ss) && SameShares(ss, tt)
    ensures Table(n, Merged(ss)) == Table(n, Merged(tt))
  {
    hide Table;
    HomedToo(home, ss, tt);
    var a, b := Table(n, Merged(ss)), Table(n, Merged(tt));
    forall p: int
      ensures (p in a <==> p in b) && (p in a ==> a[p] == b[p])
    {
      TableAtHome(n, home, ss, p);
      TableAtHome(n, home, tt, p);
      assert Share(home(p), ss) == Share(home(p), tt);
    }
    assert a.Keys == b.Keys;
  }

  /** Two sequences that differ at most in the order of labels with equal timestamps. */
  ghost predicate SameUpToTies(a: seq<Label>, b: seq<Label>) {
    && |a| == |b| && multiset(a) == multiset(b)
    && forall i :: 0 <= i < |a| ==> a[i].ts == b[i].ts
  }

  lemma TopAgrees(a: seq<Label>, b: seq<Label>)
    requires Sorted(a) && Sorted(b) && a != [] && b != [] && multiset(a) == multiset(b)
    ensures a[|a| - 1].ts == b[|b| - 1].ts && a[|a| - 1] in b
  {
    assert a[|a| - 1] in multiset(b) && b[|b| - 1] in multiset(a);
  }

  /** Taking out one of the labels with the highest timestamp. */
  lemma TopOut(b: seq<Label>, j: nat)
    requires Sorted(b) && j < |b| && b[j].ts == b[|b| - 1].ts
    ensures var rest := b[..j] + b[j + 1..];
            && Sorted(rest) && multiset(rest) + multiset{b[j]} == multiset(b)
            && forall i :: 0 <= i < |rest| ==> rest[i].ts == b[i].ts
  {
    assert b == b[..j] + [b[j]] + b[j + 1..];
    assert forall i :: j <= i < |b| ==> b[i].ts == b[j].ts;
  }

  /** `b` without one label equal to the last of `a`. */
  lemma Matching(a: seq<Label>, b: seq<Label>) returns (rest: seq<Label>)
    requires Sorted(a) && Sorted(b) && a != [] && b != [] && multiset(a) == multiset(b)
    ensures Sorted(rest) && |rest| == |b| - 1 && a[|a| - 1].ts == b[|b| - 1].ts
    ensures multiset(rest) == multiset(a[..|a| - 1])
    ensures forall i :: 0 <= i < |rest| ==> rest[i].ts == b[i].ts
  {
    var n := |a| - 1;
    TopAgrees(a, b);
    var j :| 0 <= j < |b| && b[j] == a[n];
    TopOut(b, j);
    TopOut(a, n);
    assert a[..n] + a[n + 1..] == a[..n];
    rest := b[..j] + b[j + 1..];
    CancelOne(multiset(a[..n]), multiset(rest), a[n]);
  }

  lemma {:induction false} SortedAgree(a: seq<Label>, b: seq<Label>)
    requires Sorted(a) && Sorted(b) && multiset(a) == multiset(b)
    ensures SameUpToTies(a, b)
    decreases |a|
  {
    assert |a| == |multiset(a)| == |multiset(b)| == |b|;
    if a != [] {
      var rest := Matching(a, b);
      SortedAgree(a[..|a| - 1], rest);
    }
  }

  lemma CancelOne(a: multiset<Label>, b: multiset<Label>, l: Label)
    requires a + multiset{l} == b + multiset{l}
    ensures a == b
  {
    assert a == (a + multiset{l}) - multiset{l};
    assert b == (b + multiset{l}) - multiset{l};
  }

  lemma CutAgrees(a: seq<Label>, b: seq<Label>, t: nat)
    requires SameUpToTies(a, b)
    ensures UpperBound(a, t) == UpperBound(b, t)
  {
    assert forall i :: 0 <= i < |a| ==> a[i].ts == b[i].ts;
  }

  lemma PrefixAgrees(a: seq<Label>, b: seq<Label>, t: nat)
    requires Sorted(a) && Sorted(b) && SameUpToTies(a, b)
    ensures var k := UpperBound(a, t);
            k == UpperBound(b, t) && SameUpToTies(a[..k], b[..k]) && SameUpToTies(a[k..], b[k..])
  {
    var k := UpperBound(a, t);
    CutAgrees(a, b, t);
    forall l: Label
      ensures multiset(a[..k])[l] == multiset(b[..k])[l] && multiset(a[k..])[l] == multiset(b[k..])[l]
    {
      SplitAt(a, t, l);
      SplitAt(b, t, l);
    }
    SameBag(multiset(a[..k]), multiset(b[..k]));
    SameBag(multiset(a[k..]), multiset(b[k..]));
  }

  lemma SameBag(a: multiset<Label>, b: multiset<Label>)
    requires forall l: Label :: a[l] == b[l]
    ensures a == b
  {
  }

  /** Below the cut are exactly the labels up to `t`. */
  lemma SplitAt(s: seq<Label>, t: nat, l: Label)
    requires Sorted(s)
    ensures var k := UpperBound(s, t);
            && multiset(s[..k])[l] == (if l.ts <= t then multiset(s)[l] else 0)
            && multiset(s[k..])[l] == (if l.ts <= t then 0 else multiset(s)[l])
  {
    var k := UpperBound(s, t);
    AboveCut(s, t);
    assert s == s[..k] + s[k..];
    assert multiset(s)[l] == multiset(s[..k])[l] + multiset(s[k..])[l];
    assert l.ts <= t ==> l !in s[k..];
    assert l.ts > t ==> l !in s[..k];
  }
}
