/** Exactly when the interleaving of the connections shows in what the stabilizer delivers. */
module Ties {
  import opened Messages
  import opened StableOrder
  import opened Stabilizer
  import opened Clients
  import opened Merge

  /** The labels with timestamp `t` come out the same whichever message is first. */
  ghost predicate Commute(m: Message, k: Message, t: nat) {
    At(m.labels, t) + At(k.labels, t) == At(k.labels, t) + At(m.labels, t)
  }

  /** No two messages of different clients compete for the order at `t`. */
  ghost predicate CommutingAt(ss: seq<Sourced>, t: nat) {
    forall i, j :: 0 <= i < |ss| && 0 <= j < |ss| && ss[i].client != ss[j].client ==>
      Commute(ss[i].message, ss[j].message, t)
  }

  function Labels(ss: seq<Sourced>): seq<Label> {
    AllLabels(Merged(ss))
  }

  // ------------------------------------------------- commuting messages: no trace

  lemma LabelsAround(a: seq<Sourced>, s: seq<Sourced>, b: seq<Sourced>, t: nat)
    ensures At(Labels(a + s + b), t) == At(Labels(a), t) + At(Labels(s), t) + At(Labels(b), t)
    ensures At(Labels(a + b), t) == At(Labels(a), t) + At(Labels(b), t)
  {
    hide At, AllLabels;
    assert Merged(a + s + b) == Merged(a) + Merged(s) + Merged(b);
    assert Merged(a + b) == Merged(a) + Merged(b);
    AllLabelsConcat(Merged(a) + Merged(s), Merged(b));
    AllLabelsConcat(Merged(a), Merged(s));
    AllLabelsConcat(Merged(a), Merged(b));
    AtConcat(Labels(a) + Labels(s), Labels(b), t);
    AtConcat(Labels(a), Labels(s), t);
    AtConcat(Labels(a), Labels(b), t);
  }

  lemma LabelsOne(s: Sourced)
    ensures Labels([s]) == s.message.labels
  {
    assert Merged([s])[..0] == [];
    assert AllLabels(Merged([s])) == [] + s.message.labels;
  }

  lemma PassBoth<T>(x: seq<T>, y: seq<T>, z: seq<T>)
    requires x + y == y + x && x + z == z + x
    ensures x + (y + z) == (y + z) + x
  {
    assert x + (y + z) == (x + y) + z == y + (x + z) == y + (z + x);
  }

  /** A message that commutes with each of `b` passes all of them. */
  lemma {:induction false} PassAll(m: Message, b: seq<Sourced>, t: nat)
    requires forall i :: 0 <= i < |b| ==> Commute(m, b[i].message, t)
    ensures At(m.labels, t) + At(Labels(b), t) == At(Labels(b), t) + At(m.labels, t)
  {
    hide At, AllLabels, Merged;
    if b == [] {
      NoLabelsAt(t);
    } else {
      var n := |b| - 1;
      PassAll(m, b[..n], t);
      assert b == b[..n] + [b[n]];
      LabelsAround(b[..n], [], [b[n]], t);
      LabelsOne(b[n]);
      assert Commute(m, b[n].message, t);
      PassBoth(At(m.labels, t), At(Labels(b[..n]), t), At(b[n].message.labels, t));
    }
  }

  lemma NoLabelsAt(t: nat)
    ensures At(Labels([]), t) == []
  {
  }

  /** If the messages commute at `t`, every merge has the labels of `t` in the same order. */
  lemma {:induction false} CommutingAgree(ss: seq<Sourced>, tt: seq<Sourced>, t: nat)
    requires SameShares(ss, tt) && CommutingAt(ss, t)
    ensures At(Labels(tt), t) == At(Labels(ss), t)
  {
    hide At, Labels, Share, SameShares, Commute;
    if ss == [] {
      NoShares(tt);
    } else {
      var n := |ss| - 1;
      var j := TakeOut(ss, tt);
      var init, x, a, b := ss[..n], ss[n], tt[..j], tt[j + 1..];
      CommutingAgree(init, a + b, t);
      Rivals(ss, tt, j, b, t);
      PassAll(x.message, b, t);
      assert ss == init + [x] && tt == a + [x] + b;
      LabelsAround(init, [], [x], t);
      LabelsAround(a, [x], b, t);
      LabelsOne(x);
      Reorder(At(Labels(a), t), At(x.message.labels, t), At(Labels(b), t));
    }
  }

  lemma Reorder<T>(a: seq<T>, x: seq<T>, b: seq<T>)
    requires x + b == b + x
    ensures a + x + b == (a + b) + x
  {
    assert a + x + b == a + (x + b) == a + (b + x);
  }

  /** What follows a client's last message comes from other clients, hence commutes with it. */
  lemma Rivals(ss: seq<Sourced>, tt: seq<Sourced>, j: nat, b: seq<Sourced>, t: nat)
    requires SameShares(ss, tt) && CommutingAt(ss, t)
    requires j < |tt| && b == tt[j + 1..] && Share(tt[j].client, b) == []
    ensures forall i :: 0 <= i < |b| ==> Commute(tt[j].message, b[i].message, t)
  {
    hide SameShares, Commute;
    var p := SameElements(ss, tt, j);
    forall i | 0 <= i < |b|
      ensures Commute(tt[j].message, b[i].message, t)
    {
      ShareUpTo(b, i);
      var q := SameElements(ss, tt, j + 1 + i);
    }
  }

  // --------------------------------------------- messages that do not: a witness

  /** Without the messages of client `d`. */
  function Except(d: nat, ss: seq<Sourced>): seq<Sourced> {
    if ss == [] then []
    else Except(d, ss[..|ss| - 1]) + if ss[|ss| - 1].client == d then [] else [ss[|ss| - 1]]
  }

  lemma {:induction false} ShareExcept(c: nat, d: nat, ss: seq<Sourced>)
    ensures Share(c, Except(d, ss)) == if c == d then [] else Share(c, ss)
  {
    if ss != [] {
      var init, last := ss[..|ss| - 1], ss[|ss| - 1];
      ShareExcept(c, d, init);
      if last.client == d {
        assert Except(d, ss) == Except(d, init);
      } else {
        ShareConcat(c, Except(d, init), [last]);
        ShareOne(c, last);
      }
    }
  }

  lemma ShareThree(c: nat, x: seq<Sourced>, y: seq<Sourced>, z: seq<Sourced>)
    ensures Share(c, x + y + z) == Share(c, x) + Share(c, y) + Share(c, z)
  {
    ShareConcat(c, x + y, z);
    ShareConcat(c, x, y);
  }

  /** Two messages of different clients are neighbours in some merge of the same streams. */
  lemma Neighbours(ss: seq<Sourced>, i: nat, j: nat) returns (a: seq<Sourced>, b: seq<Sourced>)
    requires i < j < |ss| && ss[i].client != ss[j].client
    ensures SameShares(ss, a + [ss[i], ss[j]] + b)
  {
    var d, mid := ss[j].client, ss[i + 1..j];
    var own, others := From(d, Share(d, mid)), Except(d, mid);
    a, b := ss[..i] + own, others + ss[j + 1..];
    forall c
      ensures Share(c, ss) == Share(c, a + [ss[i], ss[j]] + b)
    {
      NeighboursShare(ss, i, j, c);
    }
  }

  lemma NeighboursShare(ss: seq<Sourced>, i: nat, j: nat, c: nat)
    requires i < j < |ss| && ss[i].client != ss[j].client
    ensures var d, mid := ss[j].client, ss[i + 1..j];
            Share(c, ss)
            == Share(c, (ss[..i] + From(d, Share(d, mid))) + [ss[i], ss[j]] + (Except(d, mid) + ss[j + 1..]))
  {
    hide Share, Except, From;
    var d, x, y, mid, rest := ss[j].client, ss[i], ss[j], ss[i + 1..j], ss[j + 1..];
    var own, others := From(d, Share(d, mid)), Except(d, mid);
    assert ss == (ss[..i] + [x] + mid) + [y] + rest;
    ShareThree(c, ss[..i] + [x] + mid, [y], rest);
    ShareThree(c, ss[..i], [x], mid);
    ShareThree(c, ss[..i] + own, [x, y], others + rest);
    ShareConcat(c, ss[..i], own);
    ShareConcat(c, others, rest);
    assert [x, y] == [x] + [y];
    ShareConcat(c, [x], [y]);
    ShareOne(c, x);
    ShareOne(c, y);
    ShareFrom(c, d, Share(d, mid));
    ShareExcept(c, d, mid);
    Rearranged(Share(c, ss[..i]), Share(c, [x]), Share(c, mid), Share(c, [y]), Share(c, rest),
               Share(c, own), Share(c, others));
  }

  lemma Rearranged<T>(p: seq<T>, x: seq<T>, m: seq<T>, y: seq<T>, r: seq<T>, own: seq<T>, others: seq<T>)
    requires (x == [] && own == m && others == []) || (y == [] && own == [] && others == m)
    ensures (p + x + m) + y + r == (p + own) + (x + y) + (others + r)
  {
  }

  lemma Swapped(ss: seq<Sourced>, a: seq<Sourced>, x: Sourced, y: Sourced, b: seq<Sourced>)
    requires SameShares(ss, a + [x, y] + b) && x.client != y.client
    ensures SameShares(ss, a + [y, x] + b)
  {
    hide Share;
    SharesOfTwo(x, y);
    forall c
      ensures Share(c, ss) == Share(c, a + [y, x] + b)
    {
      ShareThree(c, a, [x, y], b);
      ShareThree(c, a, [y, x], b);
      assert Share(c, ss) == Share(c, a + [x, y] + b);
    }
  }

  lemma SharesOfTwo(x: Sourced, y: Sourced)
    requires x.client != y.client
    ensures SameShares([x, y], [y, x])
  {
    hide Share;
    forall c: nat
      ensures Share(c, [x, y]) == Share(c, [y, x])
    {
      ShareConcat(c, [x], [y]);
      ShareConcat(c, [y], [x]);
      assert [x] + [y] == [x, y] && [y] + [x] == [y, x];
      ShareOne(c, x);
      ShareOne(c, y);
      Slip([], Share(c, [x]), Share(c, [y]));
    }
  }

  lemma LabelsTwo(x: Sourced, y: Sourced, t: nat)
    ensures At(Labels([x, y]), t) == At(x.message.labels, t) + At(y.message.labels, t)
  {
    hide At, Labels;
    LabelsAround([x], [], [y], t);
    LabelsOne(x);
    LabelsOne(y);
    assert [x] + [y] == [x, y];
  }

  lemma CancelAround<T>(a: seq<T>, x: seq<T>, y: seq<T>, b: seq<T>)
    requires a + x + b == a + y + b && |x| == |y|
    ensures x == y
  {
    assert x == (a + x + b)[|a|..|a| + |x|] && y == (a + y + b)[|a|..|a| + |x|];
  }

  /** Every merge of the same streams has the labels of `t` in the order of `ss`. */
  ghost predicate Invariant(ss: seq<Sourced>, t: nat) {
    forall tt :: SameShares(ss, tt) ==> At(Labels(tt), t) == At(Labels(ss), t)
  }

  lemma InvariantCommutes(ss: seq<Sourced>, i: nat, j: nat, t: nat)
    requires Invariant(ss, t) && i < j < |ss| && ss[i].client != ss[j].client
    ensures Commute(ss[i].message, ss[j].message, t)
  {
    hide At, Labels, SameShares;
    var x, y := ss[i], ss[j];
    var a, b := Neighbours(ss, i, j);
    Swapped(ss, a, x, y, b);
    assert At(Labels(a + [x, y] + b), t) == At(Labels(a + [y, x] + b), t);
    LabelsAround(a, [x, y], b, t);
    LabelsAround(a, [y, x], b, t);
    LabelsTwo(x, y, t);
    LabelsTwo(y, x, t);
    CancelAround(At(Labels(a), t), At(Labels([x, y]), t), At(Labels([y, x]), t), At(Labels(b), t));
  }

  /** The order of the labels of `t` is the same in every merge of the streams if and only if
      no two messages of different clients compete for it. */
  lemma InvariantIffCommuting(ss: seq<Sourced>, t: nat)
    ensures Invariant(ss, t) <==> CommutingAt(ss, t)
  {
    hide At, Labels, SameShares;
    if CommutingAt(ss, t) {
      forall tt | SameShares(ss, tt)
        ensures At(Labels(tt), t) == At(Labels(ss), t)
      {
        CommutingAgree(ss, tt, t);
      }
    }
    if Invariant(ss, t) {
      forall i, j | 0 <= i < |ss| && 0 <= j < |ss| && ss[i].client != ss[j].client
        ensures Commute(ss[i].message, ss[j].message, t)
      {
        if i < j {
          InvariantCommutes(ss, i, j, t);
        } else {
          InvariantCommutes(ss, j, i, t);
        }
      }
    }
  }

  /** Seen from the connections: messages of different streams commute. */
  ghost predicate StreamsCommute(streams: nat -> seq<Message>, t: nat) {
    forall c, d, i, j {:trigger streams(c)[i], streams(d)[j]} ::
      c != d && 0 <= i < |streams(c)| && 0 <= j < |streams(d)| ==> Commute(streams(c)[i], streams(d)[j], t)
  }

  /** Commuting is a matter of the streams alone. */
  lemma CommutingStreams(streams: nat -> seq<Message>, ss: seq<Sourced>, t: nat)
    requires forall c {:trigger streams(c)} :: Share(c, ss) == streams(c)
    ensures CommutingAt(ss, t) <==> StreamsCommute(streams, t)
  {
    hide Share, Commute;
    if CommutingAt(ss, t) {
      forall c, d, i, j | c != d && 0 <= i < |streams(c)| && 0 <= j < |streams(d)|
        ensures Commute(streams(c)[i], streams(d)[j], t)
      {
        var p := ShareMember(c, ss, i);
        var q := ShareMember(d, ss, j);
      }
    }
    if StreamsCommute(streams, t) {
      forall p, q | 0 <= p < |ss| && 0 <= q < |ss| && ss[p].client != ss[q].client
        ensures Commute(ss[p].message, ss[q].message, t)
      {
        var c, d := ss[p].client, ss[q].client;
        ShareUpTo(ss, p);
        ShareUpTo(ss, q);
        var i, j := |Share(c, ss[..p])|, |Share(d, ss[..q])|;
        assert streams(c)[i] == ss[p].message && streams(d)[j] == ss[q].message;
      }
    }
  }

  // -------------------------------------------------------- the delivered values

  /** Everything delivered or pending, in order. */
  function Output(s: State): seq<int> {
    Flatten(s.batches) + s.deleted
  }

  ghost predicate SameOrderUpTo(x: seq<Label>, y: seq<Label>, t: nat) {
    forall u: nat :: u <= t ==> At(x, u) == At(y, u)
  }

  /** Two sorted prefixes up to `t` with the same timestamps. */
  lemma PrefixesEqualIff(p: seq<Label>, q: seq<Label>, t: nat)
    requires Sorted(p) && Sorted(q) && SameUpToTies(p, q)
    ensures var k := UpperBound(p, t);
            k <= |q| && (Values(p[..k]) == Values(q[..k]) <==> SameOrderUpTo(p, q, t))
  {
    var k := UpperBound(p, t);
    CutAgrees(p, q, t);
    forall u: nat
      ensures At(p[..k], u) == if u <= t then At(p, u) else []
      ensures At(q[..k], u) == if u <= t then At(q, u) else []
    {
      AtBelow(p, t, u);
      AtBelow(q, t, u);
    }
    if SameOrderUpTo(p, q, t) {
      StableSortUnique(p[..k], q[..k]);
    }
    if Values(p[..k]) == Values(q[..k]) {
      SameValues(p[..k], q[..k]);
    }
  }

  lemma SameValues(a: seq<Label>, b: seq<Label>)
    requires |a| == |b| && (forall i :: 0 <= i < |a| ==> a[i].ts == b[i].ts) && Values(a) == Values(b)
    ensures a == b
  {
    forall i | 0 <= i < |a|
      ensures a[i] == b[i]
    {
      assert Values(a)[i] == Values(b)[i];
    }
  }

  lemma AtBelow(s: seq<Label>, t: nat, u: nat)
    requires Sorted(s)
    ensures At(s[..UpperBound(s, t)], u) == if u <= t then At(s, u) else []
  {
    var k := UpperBound(s, t);
    assert s == s[..k] + s[k..];
    AtConcat(s[..k], s[k..], u);
    AboveCut(s, t);
    if u <= t {
      AtEmptyIff(s[k..], u);
    } else {
      AtEmptyIff(s[..k], u);
    }
  }

  /** The same labels arriving in two orders, cut at the same stable time. */
  lemma CutSortsAgree(x: seq<Label>, y: seq<Label>, t: nat)
    requires multiset(x) == multiset(y)
    ensures var p, q := Sort(x), Sort(y);
            var k := UpperBound(p, t);
            && k == UpperBound(q, t)
            && SameUpToTies(p[..k], q[..k]) && SameUpToTies(p[k..], q[k..])
            && (Values(p[..k]) == Values(q[..k]) <==> SameOrderUpTo(x, y, t))
  {
    hide Sort, UpperBound, SameUpToTies, Values, Sorted, At;
    SortIsStableSort(x);
    SortIsStableSort(y);
    SortedAgree(Sort(x), Sort(y));
    PrefixAgrees(Sort(x), Sort(y), t);
    PrefixesEqualIff(Sort(x), Sort(y), t);
  }

  lemma OutputsAgree(c: Config, n: int, x: seq<Message>, y: seq<Message>)
    requires n >= 1 && Protocol(n, x) && Protocol(n, y) && |x| == |y|
    requires multiset(AllLabels(x)) == multiset(AllLabels(y)) && Table(n, x) == Table(n, y)
    ensures HasPartition(Table(n, x))
    ensures var a, b := Run(c, Init(n), x), Run(c, Init(n), y);
            && SameUpToTies(a.log, b.log) && SameUpToTies(a.storage, b.storage)
            && (Output(a) == Output(b) <==> SameOrderUpTo(AllLabels(x), AllLabels(y), StableTime(Table(n, x))))
  {
    hide Table, Protocol, Apply, Run, Sort, UpperBound, Sorted, SameUpToTies, SameOrderUpTo, Flatten, Values, AllLabels;
    TableHasPartition(n, x);
    if x == [] {
      assert x == y;
      NothingDiffers(Run(c, Init(n), x).log, StableTime(Table(n, x)));
      NothingDiffers(Run(c, Init(n), x).storage, StableTime(Table(n, x)));
      NothingDiffers(AllLabels(x), StableTime(Table(n, x)));
    } else {
      EmissionIsStableSort(c, n, x);
      EmissionIsStableSort(c, n, y);
      CutSortsAgree(AllLabels(x), AllLabels(y), StableTime(Table(n, x)));
    }
  }

  lemma NothingDiffers(a: seq<Label>, t: nat)
    ensures SameUpToTies(a, a) && SameOrderUpTo(a, a, t)
  {
  }

  /** Every client keeps the protocol, every partition to its connection. */
  ghost predicate Orderly(n: int, home: int -> nat, ss: seq<Sourced>) {
    n >= 1 && Homed(home, ss) && forall d :: Protocol(n, Share(d, ss))
  }

  lemma OrderlyToo(n: int, home: int -> nat, ss: seq<Sourced>, tt: seq<Sourced>)
    requires Orderly(n, home, ss) && SameShares(ss, tt)
    ensures Orderly(n, home, tt) && Protocol(n, Merged(tt))
  {
    hide Protocol, Share;
    HomedToo(home, ss, tt);
    forall d
      ensures Protocol(n, Share(d, tt))
    {
      assert Share(d, ss) == Share(d, tt);
    }
    MergedProtocol(n, home, tt);
  }

  /** Two complete runs over the same streams, interleaved differently, emit and keep back the
      same labels in the same order up to equal timestamps, and deliver the same values exactly
      when the labels up to the stable time arrived in the same order, timestamp by timestamp. */
  lemma InterleavingsAgree(c: Config, n: int, home: int -> nat, ss: seq<Sourced>, tt: seq<Sourced>)
    requires Orderly(n, home, ss) && SameShares(ss, tt)
    ensures HasPartition(Table(n, Merged(ss)))
    ensures var a, b := Run(c, Init(n), Merged(ss)), Run(c, Init(n), Merged(tt));
            && SameUpToTies(a.log, b.log) && SameUpToTies(a.storage, b.storage)
            && a.heartbeat == b.heartbeat == Table(n, Merged(ss))
            && (Output(a) == Output(b) <==> SameOrderUpTo(Labels(ss), Labels(tt), StableTime(a.heartbeat)))
  {
    hide Table, Protocol, Share, SameShares, Run, SameUpToTies, SameOrderUpTo, Output;
    Reflexive(ss);
    OrderlyToo(n, home, ss, ss);
    OrderlyToo(n, home, ss, tt);
    SharesFixLabels(ss, tt);
    SharesFixTable(n, home, ss, tt);
    RunTable(c, n, Merged(ss));
    RunTable(c, n, Merged(tt));
    OutputsAgree(c, n, Merged(ss), Merged(tt));
  }

  lemma Reflexive(ss: seq<Sourced>)
    ensures SameShares(ss, ss)
  {
  }

  ghost predicate CommutingUpTo(ss: seq<Sourced>, t: nat) {
    forall u: nat :: u <= t ==> CommutingAt(ss, u)
  }

  /** The values delivered are the same for every interleaving of the streams if and only if, at
      every timestamp up to the stable time, messages of different clients commute. */
  lemma DeliveryInvariantIff(c: Config, n: int, home: int -> nat, ss: seq<Sourced>)
    requires Orderly(n, home, ss)
    ensures HasPartition(Table(n, Merged(ss)))
    ensures (forall tt :: SameShares(ss, tt) ==>
               Output(Run(c, Init(n), Merged(tt))) == Output(Run(c, Init(n), Merged(ss))))
            <==> CommutingUpTo(ss, StableTime(Table(n, Merged(ss))))
  {
    hide Table, SameShares, Run, Output, Orderly, Labels, At, CommutingAt, SameUpToTies;
    Reflexive(ss);
    InterleavingsAgree(c, n, home, ss, ss);
    var t := StableTime(Table(n, Merged(ss)));
    forall tt | SameShares(ss, tt)
      ensures Output(Run(c, Init(n), Merged(tt))) == Output(Run(c, Init(n), Merged(ss)))
              <==> SameOrderUpTo(Labels(ss), Labels(tt), t)
    {
      InterleavingsAgree(c, n, home, ss, tt);
    }
    forall u: nat
      ensures Invariant(ss, u) <==> CommutingAt(ss, u)
    {
      InvariantIffCommuting(ss, u);
    }
    if CommutingUpTo(ss, t) {
      forall tt | SameShares(ss, tt)
        ensures SameOrderUpTo(Labels(ss), Labels(tt), t)
      {
        forall u: nat | u <= t
          ensures At(Labels(ss), u) == At(Labels(tt), u)
        {
          assert CommutingAt(ss, u) && Invariant(ss, u);
        }
      }
    }
    if forall tt :: SameShares(ss, tt) ==> SameOrderUpTo(Labels(ss), Labels(tt), t) {
      forall u: nat | u <= t
        ensures Invariant(ss, u)
      {
      }
    }
  }

  // ---------------------------------------------------------------- it does show

  /** Two partitions with one label each, at the same time, on two connections: what is delivered
      is in the order of the interleaving. */
  lemma InterleavingShows(c: Config, a: Label, b: Label)
    requires a != b && a.ts == b.ts
    ensures var x, y := Sourced(0, Message(1, a.ts, [a])), Sourced(1, Message(2, b.ts, [b]));
            && SameShares([x, y], [y, x])
            && Output(Run(c, Init(2), Merged([x, y]))) != Output(Run(c, Init(2), Merged([y, x])))
  {
    hide Run, Output, SameShares, Share, SameUpToTies, At, Labels;
    var x, y := Sourced(0, Message(1, a.ts, [a])), Sourced(1, Message(2, b.ts, [b]));
    var home: int -> nat := p => if p == 1 then 0 else 1;
    SharesOfTwo(x, y);
    TwoAreOrderly(home, x, y);
    InterleavingsAgree(c, 2, home, [x, y], [y, x]);
    LabelsTwo(x, y, a.ts);
    LabelsTwo(y, x, a.ts);
    AtOne(a);
    AtOne(b);
    assert ([a] + [b])[0] != ([b] + [a])[0];
    TwoReach(a.ts, x, y);
  }

  lemma AtOne(l: Label)
    ensures At([l], l.ts) == [l]
  {
    assert [l][1..] == [];
  }

  lemma TwoTable(x: Sourced, y: Sourced)
    ensures Merged([x, y]) == [x.message, y.message]
    ensures Table(2, Merged([x, y]))
            == InitTable(2)[x.message.partition := x.message.heartbeat][y.message.partition := y.message.heartbeat]
  {
    var m, k := x.message, y.message;
    assert Merged([x, y]) == [m, k] && [m, k][..1] == [m] && [m][..0] == [];
    assert Table(2, [m]) == InitTable(2)[m.partition := m.heartbeat];
  }

  lemma TwoReach(t: nat, x: Sourced, y: Sourced)
    requires x.message.partition == 1 && y.message.partition == 2
    requires x.message.heartbeat == t && y.message.heartbeat == t
    ensures HasPartition(Table(2, Merged([x, y]))) && StableTime(Table(2, Merged([x, y]))) == t
  {
    hide Table;
    TwoTable(x, y);
    var hb := Table(2, Merged([x, y]));
    assert 1 in hb && hb[1] == t;
    assert forall p :: p in hb ==> hb[p] == t;
    StableUnique(hb, t);
  }

  lemma TwoAreOrderly(home: int -> nat, x: Sourced, y: Sourced)
    requires x.client == 0 && y.client == 1 && home(1) == 0 && home(2) == 1
    requires x.message.partition == 1 && y.message.partition == 2
    ensures Orderly(2, home, [x, y])
  {
    forall d: nat
      ensures Protocol(2, Share(d, [x, y]))
    {
      hide Share;
      ShareConcat(d, [x], [y]);
      assert [x] + [y] == [x, y];
      ShareOne(d, x);
      ShareOne(d, y);
      FirstFollows(x.message);
      FirstFollows(y.message);
      assert [] + [y.message] == [y.message] && [x.message] + [] == [x.message];
    }
  }

  lemma FirstFollows(m: Message)
    requires 1 <= m.partition <= 2
    ensures Protocol(2, [m]) && Protocol(2, [])
  {
    assert [m][..0] == [];
  }
}
