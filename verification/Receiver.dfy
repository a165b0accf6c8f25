/** The receiver thread: the imperative framer and parser over the growable buffer,
    handing decoded messages to the queue. */
module ReceiverThread {
  import opened Messages
  import opened Numerals
  import opened Framing
  import opened Stream
  import opened Buffer
  import opened HandoffQueue

  // ------------------------------------------------ conversions stop at the NUL

  lemma {:induction false} AccumulateStops(s: string, junk: string, b: nat, acc: nat)
    requires b <= 16
    ensures Accumulate(s + [NUL] + junk, b, acc) == Accumulate(s, b, acc)
  {
    var t := s + [NUL] + junk;
    if s != "" {
      assert t[1..] == s[1..] + [NUL] + junk;
      if DigitValue(s[0]) < b {
        AccumulateStops(s[1..], junk, b, acc * b + DigitValue(s[0]));
      }
    }
  }

  lemma {:induction false} SkipSpaceStops(s: string, junk: string)
    ensures SkipSpace(s + [NUL] + junk) == SkipSpace(s) + [NUL] + junk
  {
    var t := s + [NUL] + junk;
    if s != "" {
      assert t[1..] == s[1..] + [NUL] + junk;
      SkipSpaceStops(s[1..], junk);
    }
  }

  /** Bytes after the terminator do not matter to `atoi`. */
  lemma AtoiStopsAtNul(s: string, junk: string)
    ensures Atoi(s + [NUL] + junk) == Atoi(s)
  {
    SkipSpaceStops(s, junk);
    var t := SkipSpace(s);
    var u := t + [NUL] + junk;
    if t != "" && (t[0] == '-' || t[0] == '+') {
      assert u[1..] == t[1..] + [NUL] + junk;
      AccumulateStops(t[1..], junk, 10, 0);
    } else {
      assert Unsigned(u) == u;
      AccumulateStops(t, junk, 10, 0);
    }
  }

  // ------------------------------------------------------------- the frame header

  /** Scans for the pipe up to the terminator, then converts the eight length digits. */
  method GetPayLoadLength(buf: ClientData) returns (n: int)
    requires buf.Valid() && buf.maxLen >= 9
    ensures n == PayLoadLength(buf.Contents())
  {
    n := 0;
    if buf.data[0] == 'L' {
      var pos, pipe := 0, 0;
      while buf.data[pos] != NUL
        invariant pos <= buf.len
        invariant pipe == 0
        invariant PipePosition(buf.Contents(), 0) == PipePosition(buf.Contents(), pos)
        decreases buf.len - pos
      {
        if buf.data[pos] == '|' {
          pipe := pos;
          break;
        }
        pos := pos + 1;
      }
      assert pipe == PipePosition(buf.Contents(), 0);
      if pipe != 0 {
        LengthDigits(buf);
        n := Atoi(buf.data[2..10]);
      }
    }
  }

  lemma LengthDigits(buf: ClientData)
    requires buf.Valid() && buf.maxLen >= 9 && buf.len >= 2
    ensures var s := buf.Contents();
            Atoi(buf.data[2..10]) == Atoi(if |s| <= 2 then "" else if |s| <= 10 then s[2..] else s[2..10])
  {
    var s := buf.Contents();
    if buf.len < 10 {
      assert buf.data[2..10] == s[2..] + [NUL] + buf.data[buf.len + 1..10];
      AtoiStopsAtNul(s[2..], buf.data[buf.len + 1..10]);
    } else {
      assert buf.data[2..10] == s[2..10];
    }
  }

  // ------------------------------------------------------------------- the parser

  /** A `strtok` loop. */
  method Split(s: string, d: char) returns (tokens: seq<string>)
    ensures tokens == Tokens(s, d)
  {
    tokens := [];
    var next := NextToken(s, d);
    while next.Some?
      invariant Tokens(s, d) == match next
                                case None => tokens
                                case Some((token, rest)) => tokens + ([token] + Tokens(rest, d))
      decreases if next.Some? then 1 + |next.value.1| else 0
    {
      tokens := tokens + [next.value.0];
      next := NextToken(next.value.1, d);
    }
  }

  method ProcessedSocketData(text: string) returns (m: Message)
    requires ParsePayload(text).Some?
    ensures ParsePayload(text) == Some(m)
  {
    hide Tokens, Atoi, StrToUl;
    var v := Split(text, '|');
    var partition := Atoi(v[0]);
    var heartbeat := StrToUl(v[1]);
    var lbls := Split(v[2], ';');
    ghost var expected := ParseLabels(lbls).value;
    var labels := [];
    var n := 0;
    while n < |lbls|
      invariant n <= |lbls|
      invariant ParseLabels(lbls[..n]) == Some(labels)
    {
      ParsedPrefix(lbls, n + 1);
      assert lbls[..n + 1][..n] == lbls[..n];
      var lbl := Split(lbls[n], ':');
      labels := labels + [Label(StrToUl(lbl[0]), Atoi(lbl[1]))];
      n := n + 1;
    }
    assert lbls[..n] == lbls;
    m := Message(partition, heartbeat, labels);
  }

  lemma {:induction false} ParsedPrefix(tokens: seq<string>, k: nat)
    requires k <= |tokens| && ParseLabels(tokens).Some?
    ensures ParseLabels(tokens[..k]).Some?
    decreases |tokens|
  {
    if k < |tokens| {
      ParsedPrefix(tokens[..|tokens| - 1], k);
      assert tokens[..|tokens| - 1][..k] == tokens[..k];
    } else {
      assert tokens[..k] == tokens;
    }
  }

  // ------------------------------------------------------------------ the receiver

  /** The messages handed on when `count` came before: the first `ignored` are dropped. */
  function Kept(ms: seq<Message>, count: int, ignored: int): seq<Message> {
    if ms == [] then []
    else Kept(ms[..|ms| - 1], count, ignored)
         + (if count + |ms| > ignored then [ms[|ms| - 1]] else [])
  }

  /** How many of the first `n` messages are ignored. */
  function Dropped(n: nat, ignored: int): (k: nat)
    ensures k <= n && (ignored <= 0 ==> k == 0) && (0 <= ignored <= n ==> k == ignored) && (ignored >= n ==> k == n)
  {
    if ignored < 0 then 0 else if ignored < n then ignored else n
  }

  /** The messages that count: all but the first `ignored`. */
  function Relevant(ms: seq<Message>, ignored: int): seq<Message> {
    ms[Dropped(|ms|, ignored)..]
  }

  lemma {:induction false} KeptIsSuffix(ms: seq<Message>, ignored: int)
    ensures Kept(ms, 0, ignored) == Relevant(ms, ignored)
  {
    if ms != [] {
      var n := |ms| - 1;
      KeptIsSuffix(ms[..n], ignored);
      if n < ignored {
        assert Kept(ms, 0, ignored) == [];
      } else {
        var k := if ignored < 0 then 0 else ignored;
        assert Kept(ms, 0, ignored) == ms[..n][k..] + [ms[n]];
        assert ms[k..] == ms[..n][k..] + [ms[n]];
      }
    }
  }

  lemma KeptSnoc(ms: seq<Message>, m: Message, count: int, ignored: int)
    ensures Kept(ms + [m], count, ignored)
            == Kept(ms, count, ignored) + (if count + |ms| + 1 > ignored then [m] else [])
  {
    assert (ms + [m])[..|ms|] == ms;
  }

  /** Ignoring is oblivious to how the messages were grouped into chunks. */
  lemma {:induction false} KeptConcat(a: seq<Message>, b: seq<Message>, count: int, ignored: int)
    ensures Kept(a + b, count, ignored) == Kept(a, count, ignored) + Kept(b, count + |a|, ignored)
  {
    if b == [] {
      assert a + b == a;
    } else {
      assert (a + b)[..|a + b| - 1] == a + b[..|b| - 1];
      KeptConcat(a, b[..|b| - 1], count, ignored);
    }
  }

  lemma DecodeStep(s: string, n: nat)
    requires Stream.Decode(s).Decoded?
    requires n == PayLoadLength(s) && 0 < n <= |s| && s[n - 1] == '#'
    ensures n > HEADER && ParsePayload(CString(s[HEADER..n - 1])).Some?
    ensures Stream.Decode(s) == Prepend([ParsePayload(CString(s[HEADER..n - 1])).value], Stream.Decode(s[n..]))
  {
  }

  lemma DecodeStops(s: string)
    requires Stream.Decode(s).Decoded?
    ensures var n := PayLoadLength(s);
            n >= 0 && (n == 0 || n > |s| || s[n - 1] != '#' ==> Stream.Decode(s) == Decoded([], s))
  {
  }

  lemma PrependNothing(r: Decoding)
    ensures Prepend([], r) == r
  {
    if r.Decoded? {
      assert [] + r.messages == r.messages;
    }
  }

  lemma PrependRest(ms: seq<Message>, rest: string)
    ensures Prepend(ms, Decoded([], rest)) == Decoded(ms, rest)
  {
    assert ms + [] == ms;
  }

  lemma PrependTwice(a: seq<Message>, m: Message, r: Decoding)
    ensures Prepend(a, Prepend([m], r)) == Prepend(a + [m], r)
  {
    if r.Decoded? {
      assert a + ([m] + r.messages) == a + [m] + r.messages;
    }
  }

  lemma Slices(all: string, cut: string, text: string, n: nat)
    requires HEADER < n <= |all| && cut == all[HEADER..] && text == cut[..n - HEADER - 1]
    ensures text == all[HEADER..n - 1] && cut[n - HEADER..] == all[n..]
  {
  }

  class ServerAPI {
    const queue: EventQueueFrame
    const ignoreMsgCount: int         // set before the first message arrives
    var currentMsgCount: int

    constructor (queue: EventQueueFrame, ignoreMsgCount: int)
      ensures this.queue == queue && this.ignoreMsgCount == ignoreMsgCount && currentMsgCount == 0
    {
      this.queue, this.ignoreMsgCount := queue, ignoreMsgCount;
      currentMsgCount := 0;
    }

    method Push(m: Message)
      requires queue.Valid()
      modifies queue, queue.producer, queue.intermediate, queue.packets
      ensures queue.Valid() && queue.HandedOver() && queue.Contents() == old(queue.Contents()) + [m]
      ensures fresh(queue.packets - old(queue.packets))
    {
      var packet := new EventDataPacket(m);
      queue.AddToProducerQueue(packet);
      queue.PushToIntermediateQueue();
    }

    /** Counts one message and, past the ignored ones, pushes and splices it. */
    method HandOver(m: Message, ghost buf: ClientData)
      requires buf.Valid() && queue.Valid() && queue.HandedOver()
      modifies this`currentMsgCount, queue, queue.producer, queue.intermediate, queue.packets
      ensures buf.Valid() && buf.Contents() == old(buf.Contents())
      ensures queue.Valid() && queue.HandedOver() && currentMsgCount == old(currentMsgCount) + 1
      ensures queue.Contents()
              == old(queue.Contents()) + (if old(currentMsgCount) + 1 > ignoreMsgCount then [m] else [])
      ensures fresh(queue.packets - old(queue.packets))
    {
      currentMsgCount := currentMsgCount + 1;
      if currentMsgCount > ignoreMsgCount {
        Push(m);
      }
    }

    /** Removes the frame of length `n` at the front in two deletions and parses its payload. */
    method TakeFrame(buf: ClientData, n: nat) returns (m: Message)
      requires queue.Valid()
      requires buf.Valid() && HEADER < n <= buf.len
      requires ParsePayload(CString(buf.Contents()[HEADER..n - 1])).Some?
      modifies buf`len, buf.data
      ensures queue.Valid() && queue.Contents() == old(queue.Contents())
      ensures buf.Valid() && buf.Contents() == old(buf.Contents())[n..]
      ensures ParsePayload(CString(old(buf.Contents())[HEADER..n - 1])) == Some(m)
    {
      ghost var all := buf.Contents();
      buf.DeleteFromStart(HEADER);
      var rest := n - HEADER;
      var text := buf.data[..rest - 1];
      Slices(all, buf.Contents(), text, n);
      m := ProcessedSocketData(CString(text));
      buf.DeleteFromStart(rest);
      assert buf.Contents() == all[n..];
    }

    /** One round of the loop: a complete frame leaves the buffer and is handed over. */
    method DecodeOne(buf: ClientData, n: nat) returns (m: Message)
      requires buf.Valid() && queue.Valid() && queue.HandedOver()
      requires Stream.Decode(buf.Contents()).Decoded?
      requires n == PayLoadLength(buf.Contents()) && 0 < n <= buf.len && buf.data[n - 1] == '#'
      modifies buf`len, buf.data
      modifies this`currentMsgCount, queue, queue.producer, queue.intermediate, queue.packets
      ensures buf.Valid() && buf.len < old(buf.len)
      ensures Stream.Decode(old(buf.Contents())) == Prepend([m], Stream.Decode(buf.Contents()))
      ensures queue.Valid() && queue.HandedOver() && currentMsgCount == old(currentMsgCount) + 1
      ensures queue.Contents() == old(queue.Contents()) + (if currentMsgCount > ignoreMsgCount then [m] else [])
      ensures fresh(queue.packets - old(queue.packets))
    {
      hide Stream.Decode, PayLoadLength, ParsePayload, CString;
      DecodeStep(buf.Contents(), n);
      m := TakeFrame(buf, n);
      HandOver(m, buf);
    }

    /** Consumes every complete frame in the buffer. */
    method Decode(buf: ClientData)
      requires buf.Valid() && buf.maxLen >= 9 && queue.Valid() && queue.HandedOver()
      requires Stream.Decode(buf.Contents()).Decoded?
      modifies buf`len, buf.data
      modifies this`currentMsgCount, queue, queue.producer, queue.intermediate, queue.packets
      ensures buf.Valid() && queue.Valid() && queue.HandedOver()
      ensures var r := Stream.Decode(old(buf.Contents()));
              && buf.Contents() == r.rest
              && currentMsgCount == old(currentMsgCount) + |r.messages|
              && queue.Contents() == old(queue.Contents())
                                     + Kept(r.messages, old(currentMsgCount), ignoreMsgCount)
      ensures fresh(queue.packets - old(queue.packets))
    {
      hide Stream.Decode, EventQueueFrame.Valid, EventQueueFrame.Contents, EventQueueFrame.HandedOver;
      ghost var queued, count := queue.Contents(), currentMsgCount;
      ghost var all, taken: seq<Message> := Stream.Decode(buf.Contents()), [];
      PrependNothing(all);
      assert queued == queued + Kept([], count, ignoreMsgCount);
      var n := GetPayLoadLength(buf);
      DecodeStops(buf.Contents());
      hide PayLoadLength, Kept, Prepend;
      // The C++ loop leaves by `break` on each of the three negated conjuncts.
      while n != 0 && n <= buf.len && buf.data[n - 1] == '#'
        invariant buf.data == old(buf.data) && buf.maxLen == old(buf.maxLen)
        invariant buf.Valid() && queue.Valid() && queue.HandedOver()
        invariant Stream.Decode(buf.Contents()).Decoded? && all == Prepend(taken, Stream.Decode(buf.Contents()))
        invariant n == PayLoadLength(buf.Contents()) && n >= 0
        invariant n == 0 || n > buf.len || buf.data[n - 1] != '#'
                  ==> Stream.Decode(buf.Contents()) == Decoded([], buf.Contents())
        invariant currentMsgCount == count + |taken|
        invariant queue.Contents() == queued + Kept(taken, count, ignoreMsgCount)
        invariant fresh(queue.packets - old(queue.packets))
        decreases buf.len
      {
        n, taken := DecodeRound(buf, n, all, taken, queued, count);
      }
      PrependRest(taken, buf.Contents());
    }

    /** One round of the loop, with what was decoded before it. */
    method DecodeRound(buf: ClientData, n: nat, ghost all: Decoding, ghost taken: seq<Message>,
                       ghost queued: seq<Message>, ghost count: int) returns (n': int, ghost taken': seq<Message>)
      requires buf.Valid() && buf.maxLen >= 9 && queue.Valid() && queue.HandedOver()
      requires Stream.Decode(buf.Contents()).Decoded? && all == Prepend(taken, Stream.Decode(buf.Contents()))
      requires n == PayLoadLength(buf.Contents()) && 0 < n <= buf.len && buf.data[n - 1] == '#'
      requires currentMsgCount == count + |taken|
      requires queue.Contents() == queued + Kept(taken, count, ignoreMsgCount)
      modifies buf`len, buf.data
      modifies this`currentMsgCount, queue, queue.producer, queue.intermediate, queue.packets
      ensures buf.Valid() && buf.len < old(buf.len) && queue.Valid() && queue.HandedOver()
      ensures Stream.Decode(buf.Contents()).Decoded? && all == Prepend(taken', Stream.Decode(buf.Contents()))
      ensures n' == PayLoadLength(buf.Contents()) && n' >= 0
      ensures n' == 0 || n' > buf.len || buf.data[n' - 1] != '#'
              ==> Stream.Decode(buf.Contents()) == Decoded([], buf.Contents())
      ensures currentMsgCount == count + |taken'|
      ensures queue.Contents() == queued + Kept(taken', count, ignoreMsgCount)
      ensures fresh(queue.packets - old(queue.packets))
    {
      hide Stream.Decode, PayLoadLength, Kept;
      hide EventQueueFrame.Valid, EventQueueFrame.Contents, EventQueueFrame.HandedOver;
      var m := DecodeOne(buf, n);
      KeptSnoc(taken, m, count, ignoreMsgCount);
      PrependTwice(taken, m, Stream.Decode(buf.Contents()));
      taken' := taken + [m];
      n' := GetPayLoadLength(buf);
      DecodeStops(buf.Contents());
    }

    /** Appends a chunk, minus the two bytes of a telnet line end, and decodes. */
    method OnData(buf: ClientData, chunk: string)
      requires buf.Valid() && buf.maxLen >= 9 && queue.Valid() && queue.HandedOver() && |chunk| >= 2
      requires Stream.Decode(buf.Contents() + Trimmed(chunk)).Decoded?
      modifies buf, buf.data
      modifies this`currentMsgCount, queue, queue.producer, queue.intermediate, queue.packets
      ensures buf.Valid() && queue.Valid() && queue.HandedOver()
      ensures buf.maxLen >= old(buf.maxLen) && (buf.data == old(buf.data) || fresh(buf.data))
      ensures var r := Stream.Decode(old(buf.Contents()) + Trimmed(chunk));
              && buf.Contents() == r.rest
              && currentMsgCount == old(currentMsgCount) + |r.messages|
              && queue.Contents() == old(queue.Contents())
                                     + Kept(r.messages, old(currentMsgCount), ignoreMsgCount)
      ensures fresh(queue.packets - old(queue.packets))
    {
      if chunk[|chunk| - 2] == CARRIAGE_RETURN {
        buf.Append(chunk[..|chunk| - 2]);
      } else {
        buf.Append(chunk);
      }
      Decode(buf);
    }
  }
}
