/** Many connections, one receiver: every client has a receive buffer of its own, and the
    messages decoded from all of them go to the same queue. */
module Clients {
  import opened Messages
  import opened Cuts
  import opened Stream

  datatype Arrival = Arrival(client: nat, chunk: string)

  /** A decoded message with the connection it came on. */
  datatype Sourced = Sourced(client: nat, message: Message)

  /** What has been decoded so far, and what each client's buffer holds. */
  datatype Reception = Received(messages: seq<Sourced>, held: map<nat, string>) | Garbled

  predicate Chunked(es: seq<Arrival>) {
    forall i :: 0 <= i < |es| ==> |es[i].chunk| >= 2
  }

  function Held(held: map<nat, string>, c: nat): string {
    if c in held then held[c] else ""
  }

  function From(c: nat, ms: seq<Message>): (ss: seq<Sourced>)
    ensures |ss| == |ms|
  {
    seq(|ms|, i requires 0 <= i < |ms| => Sourced(c, ms[i]))
  }

  /** The messages in the order in which their frames were completed. */
  function Merged(ss: seq<Sourced>): (ms: seq<Message>)
    ensures |ms| == |ss|
  {
    seq(|ss|, i requires 0 <= i < |ss| => ss[i].message)
  }

  /** Appends each chunk to its client's buffer and decodes that buffer. */
  function Receive(es: seq<Arrival>): Reception
    requires Chunked(es)
  {
    if es == [] then Received([], map[])
    else
      var e := es[|es| - 1];
      match Receive(es[..|es| - 1])
      case Garbled => Garbled
      case Received(ss, held) =>
        match Decode(Held(held, e.client) + Trimmed(e.chunk))
        case Undefined => Garbled
        case Decoded(more, rest) => Received(ss + From(e.client, more), held[e.client := rest])
  }

  /** What one client sent. */
  function ChunksOf(c: nat, es: seq<Arrival>): (chunks: seq<string>)
    ensures Chunked(es) ==> forall i :: 0 <= i < |chunks| ==> |chunks[i]| >= 2
  {
    if es == [] then []
    else ChunksOf(c, es[..|es| - 1]) + (if es[|es| - 1].client == c then [es[|es| - 1].chunk] else [])
  }

  /** The messages that came from one client. */
  function Share(c: nat, ss: seq<Sourced>): seq<Message> {
    if ss == [] then []
    else Share(c, ss[..|ss| - 1]) + (if ss[|ss| - 1].client == c then [ss[|ss| - 1].message] else [])
  }

  lemma ShareOne(c: nat, s: Sourced)
    ensures Share(c, [s]) == if s.client == c then [s.message] else []
  {
    assert [s][..0] == [];
  }

  lemma ShareSnoc(c: nat, ss: seq<Sourced>, n: nat)
    requires |ss| == n + 1
    ensures Share(c, ss) == Share(c, ss[..n]) + if ss[n].client == c then [ss[n].message] else []
  {
  }

  lemma {:induction false} ShareConcat(c: nat, a: seq<Sourced>, b: seq<Sourced>)
    ensures Share(c, a + b) == Share(c, a) + Share(c, b)
  {
    if b == [] {
      assert a + b == a;
    } else {
      assert (a + b)[..|a + b| - 1] == a + b[..|b| - 1];
      ShareConcat(c, a, b[..|b| - 1]);
    }
  }

  lemma {:induction false} ShareFrom(c: nat, d: nat, ms: seq<Message>)
    ensures Share(c, From(d, ms)) == if c == d then ms else []
  {
    if ms != [] {
      var n := |ms| - 1;
      assert From(d, ms)[..n] == From(d, ms[..n]);
      ShareFrom(c, d, ms[..n]);
      assert ms == ms[..n] + [ms[n]];
    }
  }

  lemma MergedFrom(ss: seq<Sourced>, c: nat, ms: seq<Message>)
    ensures Merged(ss + From(c, ms)) == Merged(ss) + ms
  {
  }

  lemma {:induction false} ReceivedBefore(es: seq<Arrival>, k: nat)
    requires Chunked(es) && k <= |es| && Receive(es).Received?
    ensures Receive(es[..k]).Received?
    decreases |es|
  {
    hide Decode, Trimmed;
    if k < |es| {
      ReceivedBefore(es[..|es| - 1], k);
      assert es[..|es| - 1][..k] == es[..k];
    } else {
      assert es[..k] == es;
    }
  }

  /** One more chunk. */
  lemma ReceiveNext(es: seq<Arrival>, k: nat)
    requires Chunked(es) && k < |es| && Receive(es).Received?
    ensures Receive(es[..k]).Received?
    ensures var r, e := Receive(es[..k]), es[k];
            var d := Decode(Held(r.held, e.client) + Trimmed(e.chunk));
            && d.Decoded?
            && Receive(es[..k + 1]) == Received(r.messages + From(e.client, d.messages), r.held[e.client := d.rest])
  {
    hide Decode, Trimmed;
    ReceivedBefore(es, k);
    ReceivedBefore(es, k + 1);
    assert es[..k + 1][..k] == es[..k];
  }

  // ------------------------------------------------------------- demultiplexing

  lemma FeedSnoc(chunks: seq<string>, chunk: string)
    requires |chunk| >= 2 && forall i :: 0 <= i < |chunks| ==> |chunks[i]| >= 2
    ensures Feed("", chunks + [chunk])
            == match Feed("", chunks)
               case Undefined => Undefined
               case Decoded(ms, rest) => Prepend(ms, Decode(rest + Trimmed(chunk)))
  {
    assert (chunks + [chunk])[..|chunks|] == chunks;
  }

  lemma ChunksSnoc(c: nat, es: seq<Arrival>)
    requires es != []
    ensures var init, e := es[..|es| - 1], es[|es| - 1];
            ChunksOf(c, es) == if e.client == c then ChunksOf(c, init) + [e.chunk] else ChunksOf(c, init)
  {
  }

  lemma ShareMore(c: nat, ss: seq<Sourced>, d: nat, more: seq<Message>)
    ensures Share(c, ss + From(d, more)) == if c == d then Share(c, ss) + more else Share(c, ss)
  {
    hide Share;
    ShareConcat(c, ss, From(d, more));
    ShareFrom(c, d, more);
  }

  /** However the clients' chunks are interleaved, each client's share of what is decoded, and
      its buffer, are what its own bytes alone would have given. */
  lemma {:induction false} Demultiplex(es: seq<Arrival>, c: nat)
    requires Chunked(es) && Receive(es).Received?
    ensures Feed("", ChunksOf(c, es)) == Decoded(Share(c, Receive(es).messages), Held(Receive(es).held, c))
  {
    if es != [] {
      hide Decode, Trimmed, Feed, ChunksOf, Share, From;
      var init, e := es[..|es| - 1], es[|es| - 1];
      Demultiplex(init, c);
      var r := Receive(init);
      ChunksSnoc(c, es);
      ShareMore(c, r.messages, e.client, Decode(Held(r.held, e.client) + Trimmed(e.chunk)).messages);
      if e.client == c {
        FeedSnoc(ChunksOf(c, init), e.chunk);
      }
    }
  }

  /** Reception is defined exactly when it is for every client alone. */
  lemma {:induction false} ReceivedIff(es: seq<Arrival>)
    requires Chunked(es)
    ensures Receive(es).Received? <==> forall c :: Feed("", ChunksOf(c, es)).Decoded?
  {
    hide Decode, Trimmed;
    if Receive(es).Received? {
      forall c
        ensures Feed("", ChunksOf(c, es)).Decoded?
      {
        Demultiplex(es, c);
      }
    } else {
      var init, e := es[..|es| - 1], es[|es| - 1];
      if Receive(init).Received? {
        Demultiplex(init, e.client);
        FeedSnoc(ChunksOf(e.client, init), e.chunk);
        assert !Feed("", ChunksOf(e.client, es)).Decoded?;
      } else {
        ReceivedIff(init);
        var c: nat :| !Feed("", ChunksOf(c, init)).Decoded?;
        if Feed("", ChunksOf(c, es)).Decoded? {
          EarlierIsDecoded(es, c);
        }
        assert !Feed("", ChunksOf(c, es)).Decoded?;
      }
    }
  }

  lemma EarlierIsDecoded(es: seq<Arrival>, c: nat)
    requires Chunked(es) && es != [] && Feed("", ChunksOf(c, es)).Decoded?
    ensures Feed("", ChunksOf(c, es[..|es| - 1])).Decoded?
  {
    hide Decode, Trimmed, Feed, ChunksOf;
    ChunksSnoc(c, es);
    if es[|es| - 1].client == c {
      FeedSnoc(ChunksOf(c, es[..|es| - 1]), es[|es| - 1].chunk);
    }
  }

  /** Client `c` sends the stream of `streams(c)`, of which a part has arrived. */
  ghost predicate Arriving(streams: nat -> seq<Message>, es: seq<Arrival>) {
    && Chunked(es)
    && forall c {:trigger streams(c)} :: AllFramable(streams(c)) && Flatten(ChunksOf(c, es)) <= Print(streams(c))
  }

  ghost predicate AllArrived(streams: nat -> seq<Message>, es: seq<Arrival>) {
    && Chunked(es)
    && forall c {:trigger streams(c)} :: AllFramable(streams(c)) && Flatten(ChunksOf(c, es)) == Print(streams(c))
  }

  /** For every interleaving of well-formed streams in any chunks: the share of each client is
      the messages whose frames it has sent in full, its buffer holds the frame under way. */
  lemma WholeFramesEach(streams: nat -> seq<Message>, es: seq<Arrival>, c: nat) returns (j: nat, rest: string)
    requires Arriving(streams, es)
    ensures Receive(es).Received?
    ensures PartialAt(Frames(streams(c)), j, rest) && Flatten(ChunksOf(c, es)) == Print(streams(c)[..j]) + rest
    ensures j <= |streams(c)| && Share(c, Receive(es).messages) == streams(c)[..j]
    ensures Held(Receive(es).held, c) == rest
  {
    forall d
      ensures Feed("", ChunksOf(d, es)).Decoded?
    {
      assert AllFramable(streams(d));
      var i, held := FeedDecodesWholeFrames(streams(d), ChunksOf(d, es));
    }
    ReceivedIff(es);
    j, rest := FeedDecodesWholeFrames(streams(c), ChunksOf(c, es));
    Demultiplex(es, c);
  }

  /** Once everything has arrived every client's messages are there, and every buffer is empty. */
  lemma WholeStreamsEach(streams: nat -> seq<Message>, es: seq<Arrival>, c: nat)
    requires AllArrived(streams, es)
    ensures Receive(es).Received?
    ensures Share(c, Receive(es).messages) == streams(c) && Held(Receive(es).held, c) == ""
  {
    forall d
      ensures AllFramable(streams(d)) && Flatten(ChunksOf(d, es)) <= Print(streams(d))
    {
      assert AllFramable(streams(d));
    }
    var j, rest := WholeFramesEach(streams, es, c);
    assert AllFramable(streams(c));
    ChunkIndependence(streams(c), ChunksOf(c, es), ChunksOf(c, es));
    Demultiplex(es, c);
  }

  // --------------------------------------------------------- every merge happens

  /** Every frame in one chunk, in the order of `ss`. */
  function Deliveries(ss: seq<Sourced>): seq<Arrival> {
    seq(|ss|, i requires 0 <= i < |ss| => Arrival(ss[i].client, Frame(ss[i].message)))
  }

  ghost predicate AllFramed(ss: seq<Sourced>) {
    forall i :: 0 <= i < |ss| ==> Framable(ss[i].message)
  }

  lemma FrameLength(m: Message)
    requires Framable(m)
    ensures |Frame(m)| >= 17
  {
    FrameShape(m);
  }

  lemma DeliverWhole(m: Message)
    requires Framable(m)
    ensures |Frame(m)| >= 2 && Decode("" + Trimmed(Frame(m))) == Decoded([m], "")
  {
    hide Decode, Frame, Trimmed, Framable;
    var f := Frame(m);
    FrameLength(m);
    FrameHasNoCR(m);
    assert "" + f == f && f + "" == f;
    NoTrim(f, "", f);
    DecodeFrame(m, "");
    DecodePartial(m, "");
  }

  lemma ReceiveWhole(es: seq<Arrival>, s: Sourced)
    requires Chunked(es) && Receive(es).Received? && Held(Receive(es).held, s.client) == "" && Framable(s.message)
    ensures var all := es + [Arrival(s.client, Frame(s.message))];
            && Chunked(all)
            && Receive(all) == Received(Receive(es).messages + [s], Receive(es).held[s.client := ""])
  {
    hide Decode, Frame, Trimmed;
    DeliverWhole(s.message);
    assert (es + [Arrival(s.client, Frame(s.message))])[..|es|] == es;
    assert From(s.client, [s.message]) == [s];
  }

  lemma DeliveriesSnoc(ss: seq<Sourced>, n: nat)
    requires |ss| == n + 1
    ensures Deliveries(ss) == Deliveries(ss[..n]) + [Arrival(ss[n].client, Frame(ss[n].message))]
  {
    hide Frame;
  }

  /** The arrivals decode to exactly these messages and leave nothing behind. */
  ghost predicate DecodesTo(es: seq<Arrival>, ss: seq<Sourced>) {
    && Chunked(es)
    && Receive(es).Received?
    && Receive(es).messages == ss
    && forall c :: Held(Receive(es).held, c) == ""
  }

  lemma DecodesNext(es: seq<Arrival>, ss: seq<Sourced>, s: Sourced)
    requires DecodesTo(es, ss) && Framable(s.message)
    ensures DecodesTo(es + [Arrival(s.client, Frame(s.message))], ss + [s])
  {
    hide Frame, Receive, Framable;
    ReceiveWhole(es, s);
    var r := Receive(es + [Arrival(s.client, Frame(s.message))]);
    forall c
      ensures Held(r.held, c) == ""
    {
      assert Held(Receive(es).held, c) == "";
    }
  }

  lemma NothingDecodes()
    ensures DecodesTo([], [])
  {
  }

  /** Any order of well-formed messages is what some arrivals decode to. */
  lemma {:induction false} EveryMergeHappens(ss: seq<Sourced>)
    requires AllFramed(ss)
    ensures DecodesTo(Deliveries(ss), ss)
  {
    hide Receive, Chunked, DecodesTo, Frame, Framable;
    if ss == [] {
      NothingDecodes();
      assert Deliveries(ss) == [];
    } else {
      var n := |ss| - 1;
      assert AllFramed(ss[..n]) && Framable(ss[n].message);
      hide AllFramed, Deliveries;
      EveryMergeHappens(ss[..n]);
      DecodesNext(Deliveries(ss[..n]), ss[..n], ss[n]);
      DeliveriesSnoc(ss, n);
      assert ss == ss[..n] + [ss[n]];
    }
  }

  lemma {:induction false} DeliveriesOf(ss: seq<Sourced>, c: nat)
    ensures ChunksOf(c, Deliveries(ss)) == Frames(Share(c, ss))
  {
    if ss != [] {
      var n := |ss| - 1;
      hide Frame, Deliveries, ChunksOf, Share, Frames;
      DeliveriesOf(ss[..n], c);
      DeliveriesSnoc(ss, n);
      assert Deliveries(ss)[..|Deliveries(ss)| - 1] == Deliveries(ss[..n]);
      ChunksSnoc(c, Deliveries(ss));
      ShareSnoc(c, ss, n);
      if ss[n].client == c {
        FramesSnoc(Share(c, ss[..n]), ss[n].message);
      }
    }
  }

  lemma FramesSnoc(ms: seq<Message>, m: Message)
    ensures Frames(ms + [m]) == Frames(ms) + [Frame(m)]
  {
  }

  /** Every merge of the clients' streams is what some complete arrivals decode to. */
  lemma MergeArrives(streams: nat -> seq<Message>, ss: seq<Sourced>)
    requires forall c {:trigger streams(c)} :: AllFramable(streams(c)) && Share(c, ss) == streams(c)
    requires AllFramed(ss)
    ensures AllArrived(streams, Deliveries(ss))
    ensures Receive(Deliveries(ss)).Received? && Receive(Deliveries(ss)).messages == ss
  {
    EveryMergeHappens(ss);
    hide Receive;
    forall c
      ensures AllFramable(streams(c)) && Flatten(ChunksOf(c, Deliveries(ss))) == Print(streams(c))
    {
      DeliveriesOf(ss, c);
      assert AllFramable(streams(c));
    }
  }
}
