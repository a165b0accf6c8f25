/** The whole service: bytes from any number of connections in any interleaving and any chunks,
    two threads in any interleaving, ordered batches out. */
module Pipeline {
  import opened Messages
  import opened StableOrder
  import opened Stabilizer
  import opened Stream
  import opened Clients
  import opened Merge
  import opened Ties
  import opened ReceiverThread
  import opened Handoff

  /** The messages that count, with their connections. */
  function Counted(ignored: int, es: seq<Arrival>): seq<Sourced>
    requires Chunked(es) && Receive(es).Received?
  {
    var ss := Receive(es).messages;
    ss[Dropped(|ss|, ignored)..]
  }

  /** What the receiver thread hands to the queue. */
  function Handed(ignored: int, es: seq<Arrival>): (ms: seq<Message>)
    requires Chunked(es) && Receive(es).Received?
    ensures ms == Relevant(Merged(Receive(es).messages), ignored)
  {
    Merged(Counted(ignored, es))
  }

  /** The two threads with the decoded chunks as the receiver's input. */
  ghost function Service(c: Config, n: int, capacity: nat, ignored: int, es: seq<Arrival>): Setup
    requires Chunked(es) && Receive(es).Received?
  {
    Setup(c, n, capacity, Kept(Merged(Receive(es).messages), 0, ignored))
  }

  /** Partition `p` sends on connection `home(p)` alone, and keeps the protocol there. */
  ghost predicate Disciplined(n: int, home: int -> nat, streams: nat -> seq<Message>) {
    n >= 1 && forall c {:trigger streams(c)} ::
      Protocol(n, streams(c)) && forall i :: 0 <= i < |streams(c)| ==> home(streams(c)[i].partition) == c
  }

  /** Whatever the clients send, however it is cut and interleaved, and whatever the schedule:
      the stabilizer has applied a prefix of the decoded messages and is in the state that prefix
      alone determines; and each client's share of what was decoded are its complete frames. */
  lemma StateDependsOnMessagesOnly(c: Config, n: int, capacity: nat, ignored: int,
                                   streams: nat -> seq<Message>, es: seq<Arrival>, schedule: seq<Move>)
    requires Arriving(streams, es) && Sized(capacity)
    ensures Receive(es).Received?
    ensures forall d :: Share(d, Receive(es).messages) <= streams(d)
    ensures var u := Service(c, n, capacity, ignored, es);
            var s := Exec(u, Start(u), schedule);
            s.done <= Handed(ignored, es) && s.state == Run(c, Init(n), s.done)
  {
    hide Receive, Exec, Run, Share, Merged, Kept;
    var j, rest := WholeFramesEach(streams, es, 0);
    forall d
      ensures Share(d, Receive(es).messages) <= streams(d)
    {
      var k, held := WholeFramesEach(streams, es, d);
    }
    KeptIsSuffix(Merged(Receive(es).messages), ignored);
    ScheduleIndependence(Service(c, n, capacity, ignored, es), schedule);
  }

  lemma {:induction false} SharesHaveHomes(home: int -> nat, ss: seq<Sourced>)
    requires forall c {:trigger Share(c, ss)} :: forall i :: 0 <= i < |Share(c, ss)| ==>
               home(Share(c, ss)[i].partition) == c
    ensures Homed(home, ss)
  {
    hide Share;
    forall i | 0 <= i < |ss|
      ensures ss[i].client == home(ss[i].message.partition)
    {
      ShareUpTo(ss, i);
      assert home(Share(ss[i].client, ss)[|Share(ss[i].client, ss[..i])|].partition) == ss[i].client;
    }
  }

  /** The merged sequence of disciplined connections follows the protocol, ignored start or not. */
  lemma DecodedFollowProtocol(n: int, home: int -> nat, streams: nat -> seq<Message>, es: seq<Arrival>, ignored: int)
    requires Arriving(streams, es) && Disciplined(n, home, streams)
    ensures Receive(es).Received? && Orderly(n, home, Receive(es).messages)
    ensures Protocol(n, Handed(ignored, es))
  {
    hide Receive, Share, Protocol, Merged;
    var j, rest := WholeFramesEach(streams, es, 0);
    var ss := Receive(es).messages;
    forall c
      ensures Protocol(n, Share(c, ss))
      ensures forall i :: 0 <= i < |Share(c, ss)| ==> home(Share(c, ss)[i].partition) == c
    {
      var k, held := WholeFramesEach(streams, es, c);
      ProtocolPrefix(n, streams(c), k);
    }
    SharesHaveHomes(home, ss);
    MergedProtocol(n, home, ss);
    var ms := Merged(ss);
    ProtocolDrop(n, ms, if ignored < 0 then 0 else if ignored < |ms| then ignored else |ms|);
  }

  /** End to end, for partitions that follow the protocol on connections of their own: at any
      point of any run, what was delivered or is pending is the stable sort of the labels applied
      so far, cut at the stable time. */
  lemma EmissionEndToEnd(c: Config, n: int, capacity: nat, ignored: int, home: int -> nat,
                         streams: nat -> seq<Message>, es: seq<Arrival>, schedule: seq<Move>)
    requires Arriving(streams, es) && Disciplined(n, home, streams) && Sized(capacity)
    ensures Receive(es).Received?
    ensures var u := Service(c, n, capacity, ignored, es);
            var s := Exec(u, Start(u), schedule);
            s.done != [] ==>
              && HasPartition(Table(n, s.done))
              && var sorted := Sort(AllLabels(s.done));
                 Flatten(s.state.batches) + s.state.deleted
                 == Values(sorted[..UpperBound(sorted, StableTime(Table(n, s.done)))])
  {
    hide Receive, Exec, Run, Share, Protocol, Disciplined, Table, Sort, UpperBound, Values, Flatten, AllLabels;
    StateDependsOnMessagesOnly(c, n, capacity, ignored, streams, es, schedule);
    DecodedFollowProtocol(n, home, streams, es, ignored);
    var u := Service(c, n, capacity, ignored, es);
    var s := Exec(u, Start(u), schedule);
    if s.done != [] {
      ProtocolPrefix(n, Handed(ignored, es), |s.done|);
      assert s.done == Handed(ignored, es)[..|s.done|];
      EmissionIsStableSort(c, n, s.done);
    }
  }

  /** A complete run has applied everything that was decoded. */
  lemma CompleteState(c: Config, n: int, capacity: nat, ignored: int, es: seq<Arrival>, schedule: seq<Move>)
    requires Chunked(es) && Receive(es).Received? && Sized(capacity)
    ensures var u := Service(c, n, capacity, ignored, es);
            var s := Exec(u, Start(u), schedule);
            Complete(u, s) ==> s.state == Run(c, Init(n), Handed(ignored, es))
  {
    hide Receive, Exec, Run, Merged, Kept;
    KeptIsSuffix(Merged(Receive(es).messages), ignored);
    ScheduleIndependence(Service(c, n, capacity, ignored, es), schedule);
  }

  /** Fair runs deliver: whatever happened so far, enough rounds that offer both threads a move
      end with the result of all that was received. */
  lemma FairRunsDeliver(c: Config, n: int, capacity: nat, ignored: int, streams: nat -> seq<Message>,
                        es: seq<Arrival>, sofar: seq<Move>, rounds: seq<seq<Move>>)
    requires AllArrived(streams, es) && 0 < capacity && Sized(capacity)
    requires forall i :: 0 <= i < |rounds| ==> Fair(rounds[i])
    ensures Receive(es).Received? && forall d :: Share(d, Receive(es).messages) == streams(d)
    ensures var u := Service(c, n, capacity, ignored, es);
            |rounds| > 224 * |u.input| + 32 * Wakes(Flatten(rounds)) + 32 ==>
              Exec(u, Start(u), sofar + Flatten(rounds)).state == Run(c, Init(n), Handed(ignored, es))
  {
    hide Receive, Exec, Run, Share, Inv, Fair, Complete, Start;
    WholeStreamsEach(streams, es, 0);
    forall d
      ensures Share(d, Receive(es).messages) == streams(d)
    {
      WholeStreamsEach(streams, es, d);
    }
    var u := Service(c, n, capacity, ignored, es);
    if |rounds| > 224 * |u.input| + 32 * Wakes(Flatten(rounds)) + 32 {
      StartInv(u);
      Always(u, Start(u), sofar);
      FairSchedulesFinish(u, Exec(u, Start(u), sofar), rounds);
      ExecConcat(u, Start(u), sofar, Flatten(rounds));
      CompleteState(c, n, capacity, ignored, es, sofar + Flatten(rounds));
    }
  }

  /** Only the order in which frames are completed matters: two deployments that decode the same
      sequence, however the bytes were cut and the threads scheduled, agree after equally many
      messages and end in the same state, batch boundaries included. */
  lemma SameOrderSameBatches(c: Config, n: int, capacity: nat, ignored: int,
                             a: seq<Arrival>, s: seq<Move>, b: seq<Arrival>, t: seq<Move>)
    requires Chunked(a) && Chunked(b) && Receive(a).Received? && Receive(b).Received? && Sized(capacity)
    requires Merged(Receive(a).messages) == Merged(Receive(b).messages)
    ensures var u, v := Service(c, n, capacity, ignored, a), Service(c, n, capacity, ignored, b);
            var x, y := Exec(u, Start(u), s), Exec(v, Start(v), t);
            && (|x.done| == |y.done| ==> x.state == y.state)
            && (Complete(u, x) && Complete(v, y) ==>
                  x.state == y.state == Run(c, Init(n), Handed(ignored, a)))
  {
    hide Receive, Exec, Run, Merged, Kept;
    CompleteState(c, n, capacity, ignored, a, s);
    CompleteState(c, n, capacity, ignored, b, t);
    ScheduleIndependence(Service(c, n, capacity, ignored, a), s);
    ScheduleIndependence(Service(c, n, capacity, ignored, b), t);
  }

  lemma {:induction false} OneClientMerges(c: nat, es: seq<Arrival>)
    requires Chunked(es) && Receive(es).Received? && forall i :: 0 <= i < |es| ==> es[i].client == c
    ensures Merged(Receive(es).messages) == Share(c, Receive(es).messages)
  {
    hide Stream.Decode, Trimmed;
    if es != [] {
      var init, e := es[..|es| - 1], es[|es| - 1];
      OneClientMerges(c, init);
      var r := Receive(init);
      var more := Stream.Decode(Held(r.held, c) + Trimmed(e.chunk)).messages;
      MergedFrom(r.messages, c, more);
      ShareConcat(c, r.messages, From(c, more));
      ShareFrom(c, c, more);
    }
  }

  /** On one connection that order is given: the same stream gives the same batches, boundaries
      included, whatever the chunks and schedules. */
  lemma SameStreamSameBatches(c: Config, n: int, capacity: nat, ignored: int, streams: nat -> seq<Message>, d: nat,
                              a: seq<Arrival>, s: seq<Move>, b: seq<Arrival>, t: seq<Move>)
    requires AllArrived(streams, a) && AllArrived(streams, b) && Sized(capacity)
    requires forall i :: 0 <= i < |a| ==> a[i].client == d
    requires forall i :: 0 <= i < |b| ==> b[i].client == d
    ensures Receive(a).Received? && Receive(b).Received?
    ensures var u, v := Service(c, n, capacity, ignored, a), Service(c, n, capacity, ignored, b);
            var x, y := Exec(u, Start(u), s), Exec(v, Start(v), t);
            && (|x.done| == |y.done| ==> x.state == y.state)
            && (Complete(u, x) && Complete(v, y) ==>
                  x.state == y.state == Run(c, Init(n), Relevant(streams(d), ignored)))
  {
    hide Receive, Exec, Run, Share, Merged;
    WholeStreamsEach(streams, a, d);
    WholeStreamsEach(streams, b, d);
    OneClientMerges(d, a);
    OneClientMerges(d, b);
    SameOrderSameBatches(c, n, capacity, ignored, a, s, b, t);
  }

  /** Every connection lost equally many messages to the ignored start. */
  ghost predicate SameStart(ignored: int, a: seq<Arrival>, b: seq<Arrival>)
    requires Chunked(a) && Receive(a).Received? && Chunked(b) && Receive(b).Received?
  {
    var ss, tt := Receive(a).messages, Receive(b).messages;
    |ss| == |tt| && SameLoss(ss, tt, Dropped(|ss|, ignored))
  }

  lemma SameStreamsSameShares(streams: nat -> seq<Message>, a: seq<Arrival>, b: seq<Arrival>)
    requires AllArrived(streams, a) && AllArrived(streams, b)
    ensures Receive(a).Received? && Receive(b).Received?
    ensures SameShares(Receive(a).messages, Receive(b).messages)
    ensures |Receive(a).messages| == |Receive(b).messages|
  {
    hide Receive, Share;
    WholeStreamsEach(streams, a, 0);
    WholeStreamsEach(streams, b, 0);
    var ss, tt := Receive(a).messages, Receive(b).messages;
    forall d
      ensures Share(d, ss) == Share(d, tt)
    {
      WholeStreamsEach(streams, a, d);
      WholeStreamsEach(streams, b, d);
    }
    SharesFixLabels(ss, tt);
  }

  /** The same messages count in both exactly when every connection lost equally many. */
  lemma SameCountedIff(ignored: int, streams: nat -> seq<Message>, a: seq<Arrival>, b: seq<Arrival>)
    requires AllArrived(streams, a) && AllArrived(streams, b)
    ensures Receive(a).Received? && Receive(b).Received?
    ensures SameShares(Counted(ignored, a), Counted(ignored, b)) <==> SameStart(ignored, a, b)
  {
    hide Receive, Share, SameShares, SameLoss;
    SameStreamsSameShares(streams, a, b);
    var ss, tt := Receive(a).messages, Receive(b).messages;
    SameLossIff(ss, tt, Dropped(|ss|, ignored));
  }

  lemma CountedIsOrderly(n: int, home: int -> nat, ignored: int, streams: nat -> seq<Message>, es: seq<Arrival>)
    requires AllArrived(streams, es) && Disciplined(n, home, streams)
    ensures Receive(es).Received? && Orderly(n, home, Counted(ignored, es))
  {
    hide Receive, Share, Protocol, Disciplined, Arriving;
    ArrivedIsArriving(streams, es);
    DecodedFollowProtocol(n, home, streams, es, ignored);
    var ss := Receive(es).messages;
    var k := Dropped(|ss|, ignored);
    forall d
      ensures Protocol(n, Share(d, ss[k..]))
    {
      ShareSplit(ss, k, d);
      ProtocolDrop(n, Share(d, ss), |Share(d, ss[..k])|);
    }
  }

  /** Two finished deployments, fed the same disciplined streams in different chunks, interleavings
      and schedules, in which every connection lost equally many messages to the ignored start:
      they delivered and kept back the same labels in the same order up to equal timestamps, and
      delivered the same values exactly when labels up to the stable time arrived in the same
      order, timestamp by timestamp; for which it is enough that the clients' messages commute. */
  lemma InterleavingDoesNotMatter(c: Config, n: int, capacity: nat, ignored: int, home: int -> nat,
                                  streams: nat -> seq<Message>,
                                  a: seq<Arrival>, s: seq<Move>, b: seq<Arrival>, t: seq<Move>)
    requires AllArrived(streams, a) && AllArrived(streams, b) && Disciplined(n, home, streams) && Sized(capacity)
    requires Receive(a).Received? && Receive(b).Received? && SameStart(ignored, a, b)
    ensures var u, v := Service(c, n, capacity, ignored, a), Service(c, n, capacity, ignored, b);
            var x, y := Exec(u, Start(u), s), Exec(v, Start(v), t);
            Complete(u, x) && Complete(v, y) ==>
              && SameUpToTies(x.state.log, y.state.log) && SameUpToTies(x.state.storage, y.state.storage)
              && HasPartition(x.state.heartbeat)
              && var stable := StableTime(x.state.heartbeat);
                 && (Output(x.state) == Output(y.state)
                     <==> SameOrderUpTo(Labels(Counted(ignored, a)), Labels(Counted(ignored, b)), stable))
                 && (CommutingUpTo(Counted(ignored, a), stable) ==> Output(x.state) == Output(y.state))
  {
    hide Receive, Exec, Run, Share, SameShares, Protocol, Disciplined, SameUpToTies, SameOrderUpTo;
    hide Output, Table, Labels, Orderly, Complete, CommutingUpTo, Start, SameStart;
    SameCountedIff(ignored, streams, a, b);
    CountedIsOrderly(n, home, ignored, streams, a);
    InterleavingsAgree(c, n, home, Counted(ignored, a), Counted(ignored, b));
    DeliveryInvariantIff(c, n, home, Counted(ignored, a));
    CompleteState(c, n, capacity, ignored, a, s);
    CompleteState(c, n, capacity, ignored, b, t);
  }

  /** Exactly when the interleaving shows: the values delivered are the same for all complete
      arrivals of the streams with the same losses if and only if, at every timestamp up to the
      stable time, the messages of different clients commute. */
  lemma InterleavingMattersIff(c: Config, n: int, ignored: int, home: int -> nat,
                               streams: nat -> seq<Message>, a: seq<Arrival>)
    requires AllArrived(streams, a) && Disciplined(n, home, streams) && Receive(a).Received?
    ensures HasPartition(Table(n, Handed(ignored, a)))
    ensures (forall b {:trigger AllArrived(streams, b)} ::
               AllArrived(streams, b) && Receive(b).Received? && SameStart(ignored, a, b) ==>
                 Output(Run(c, Init(n), Handed(ignored, b))) == Output(Run(c, Init(n), Handed(ignored, a))))
            <==> CommutingUpTo(Counted(ignored, a), StableTime(Table(n, Handed(ignored, a))))
  {
    hide Receive, Run, Share, SameShares, Protocol, Disciplined, Output, Table, Orderly, CommutingUpTo;
    hide SameStart;
    CountedIsOrderly(n, home, ignored, streams, a);
    var ss := Counted(ignored, a);
    DeliveryInvariantIff(c, n, home, ss);
    if CommutingUpTo(ss, StableTime(Table(n, Merged(ss)))) {
      forall b | AllArrived(streams, b) && Receive(b).Received? && SameStart(ignored, a, b)
        ensures Output(Run(c, Init(n), Handed(ignored, b))) == Output(Run(c, Init(n), Merged(ss)))
      {
        SameCountedIff(ignored, streams, a, b);
      }
    } else {
      var tt :| SameShares(ss, tt) && Output(Run(c, Init(n), Merged(tt))) != Output(Run(c, Init(n), Merged(ss)));
      var b := Rearranged(ignored, streams, a, tt);
      SameCountedIff(ignored, streams, a, b);
    }
  }

  /** Some arrivals lose what `a` loses and count their messages in the order `tt`. */
  lemma Rearranged(ignored: int, streams: nat -> seq<Message>, a: seq<Arrival>, tt: seq<Sourced>)
    returns (b: seq<Arrival>)
    requires AllArrived(streams, a) && Receive(a).Received? && SameShares(Counted(ignored, a), tt)
    ensures AllArrived(streams, b) && Receive(b).Received? && Counted(ignored, b) == tt
  {
    hide Receive, Share, Frame, Print, Merged;
    var ss := Receive(a).messages;
    var k := Dropped(|ss|, ignored);
    var all := ss[..k] + tt;
    SharesFixLabels(ss[k..], tt);
    assert ss == ss[..k] + ss[k..];
    forall d
      ensures AllFramable(streams(d)) && Share(d, all) == streams(d)
    {
      WholeStreamsEach(streams, a, d);
      ShareConcat(d, ss[..k], ss[k..]);
      ShareConcat(d, ss[..k], tt);
      assert Share(d, ss[k..]) == Share(d, tt);
      assert AllFramable(streams(d));
    }
    forall i | 0 <= i < |all|
      ensures Framable(all[i].message)
    {
      ShareUpTo(all, i);
      assert AllFramable(streams(all[i].client));
    }
    MergeArrives(streams, all);
    b := Deliveries(all);
    assert all[k..] == tt && |all| == |ss|;
  }

  lemma ArrivedIsArriving(streams: nat -> seq<Message>, es: seq<Arrival>)
    requires AllArrived(streams, es)
    ensures Arriving(streams, es)
  {
    forall c
      ensures AllFramable(streams(c)) && Flatten(ChunksOf(c, es)) <= Print(streams(c))
    {
      assert AllFramable(streams(c));
    }
  }
}
