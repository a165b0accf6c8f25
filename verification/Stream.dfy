/** Incremental decoding: what the framer makes of a growing buffer, however it was chunked. */
module Stream {
  import opened Messages
  import opened Numerals
  import opened Framing
  import opened Cuts

  const HEADER: nat := 11
  const CARRIAGE_RETURN: char := 13 as char

  // ------------------------------------------------------------------- decoding

  /** The first `|` before any NUL, or 0. */
  function PipePosition(s: string, from: nat): (k: nat)
    ensures k == 0 || from <= k < |s|
    decreases |s| - from
  {
    if from >= |s| || s[from] == NUL then 0
    else if s[from] == '|' then from
    else PipePosition(s, from + 1)
  }

  /** The declared frame length, or 0 while the header is incomplete. */
  function PayLoadLength(s: string): int {
    if s == "" || s[0] != 'L' || PipePosition(s, 0) == 0 then 0
    else Atoi(if |s| <= 2 then "" else if |s| <= 10 then s[2..] else s[2..10])
  }

  /** `Undefined` stands for input on which the C++ code leaves defined behaviour:
      a frame length that is negative or too short, or missing fields. */
  datatype Decoding = Decoded(messages: seq<Message>, rest: string) | Undefined

  function Prepend(ms: seq<Message>, r: Decoding): Decoding {
    match r
    case Decoded(more, rest) => Decoded(ms + more, rest)
    case Undefined => Undefined
  }

  function Decode(s: string): Decoding
    decreases |s|
  {
    var n := PayLoadLength(s);
    if n < 0 then Undefined
    else if n == 0 || n > |s| || s[n - 1] != '#' then Decoded([], s)
    else if n <= HEADER then Undefined
    else
      match ParsePayload(CString(s[HEADER..n - 1]))
      case None => Undefined
      case Some(m) => Prepend([m], Decode(s[n..]))
  }

  /** A chunk ending in CR and one more byte (a telnet line) loses those two bytes. */
  function Trimmed(chunk: string): string
    requires |chunk| >= 2
  {
    if chunk[|chunk| - 2] == CARRIAGE_RETURN then chunk[..|chunk| - 2] else chunk
  }

  /** Feeds a chunk sequence to a buffer, decoding after every chunk. */
  function Feed(s: string, chunks: seq<string>): Decoding
    requires forall i :: 0 <= i < |chunks| ==> |chunks[i]| >= 2
  {
    if chunks == [] then Decoded([], s)
    else
      match Feed(s, chunks[..|chunks| - 1])
      case Undefined => Undefined
      case Decoded(ms, rest) => Prepend(ms, Decode(rest + Trimmed(chunks[|chunks| - 1])))
  }

  // ------------------------------------------------------------------- printing

  function Wrap(length: string, payload: string): string {
    "L=" + length + "|" + payload + "#"
  }

  /** The declared length counts the whole frame. */
  function Frame(m: Message): string {
    var payload := PrintPayload(m);
    Wrap(Pad8(HEADER + |payload| + 1), payload)
  }

  function Frames(ms: seq<Message>): seq<string> {
    seq(|ms|, i requires 0 <= i < |ms| => Frame(ms[i]))
  }

  /** The byte stream carrying a message sequence. */
  function Print(ms: seq<Message>): string {
    Flatten(Frames(ms))
  }

  /** The message can be framed: its numbers fit and the length has at most eight digits. */
  ghost predicate Framable(m: Message) {
    InRange(m) && HEADER + |PrintPayload(m)| + 1 < MAX_FRAME
  }

  ghost predicate AllFramable(ms: seq<Message>) {
    forall i :: 0 <= i < |ms| ==> Framable(ms[i])
  }

  // --------------------------------------------------------------- whole frames

  lemma FrameShape(m: Message)
    requires Framable(m)
    ensures var f, p := Frame(m), PrintPayload(m);
            && |f| == HEADER + |p| + 1
            && |f| >= 17
            && f[0] == 'L' && f[1] == '=' && f[2..10] == Pad8(|f|) && f[10] == '|'
            && f[HEADER..|f| - 1] == p && f[|f| - 1] == '#'
            && (forall i :: 0 <= i < 10 ==> f[i] != '|' && f[i] != NUL)
  {
    var p := PrintPayload(m);
    PadLength(HEADER + |p| + 1);
    PayloadTokens(m);
    WrapShape(Pad8(HEADER + |p| + 1), p);
  }

  lemma WrapShape(length: string, p: string)
    requires |length| == 8 && AllDigits(length)
    ensures var f := Wrap(length, p);
            && |f| == HEADER + |p| + 1
            && f[0] == 'L' && f[1] == '=' && f[2..10] == length && f[10] == '|'
            && f[HEADER..|f| - 1] == p && f[|f| - 1] == '#'
            && (forall i :: 0 <= i < 10 ==> f[i] != '|' && f[i] != NUL)
  {
    assert forall i :: 2 <= i < 10 ==> Wrap(length, p)[i] == length[i - 2];
  }

  /** Frames contain no carriage return, so no chunk of them is trimmed. */
  lemma FrameHasNoCR(m: Message)
    requires Framable(m)
    ensures CARRIAGE_RETURN !in Frame(m)
  {
    hide PrintPayload, Pad8;
    PayloadTokens(m);
    PadLength(HEADER + |PrintPayload(m)| + 1);
    PlainHasNoCR(PrintPayload(m), "-:;|");
    PlainHasNoCR(Pad8(HEADER + |PrintPayload(m)| + 1), "");
    WrapHasNoCR(Pad8(HEADER + |PrintPayload(m)| + 1), PrintPayload(m));
  }

  lemma PlainHasNoCR(s: string, extra: string)
    requires Plain(s, extra) && CARRIAGE_RETURN !in extra
    ensures CARRIAGE_RETURN !in s
  {
  }

  lemma WrapHasNoCR(length: string, p: string)
    requires CARRIAGE_RETURN !in length && CARRIAGE_RETURN !in p
    ensures CARRIAGE_RETURN !in Wrap(length, p)
  {
  }

  lemma {:induction false} PipeAt(s: string, from: nat, k: nat)
    requires from <= k && k > 0
    requires k < |s| ==> s[k] == '|'
    requires forall i :: from <= i < k && i < |s| ==> s[i] != '|' && s[i] != NUL
    ensures PipePosition(s, from) == if k < |s| then k else 0
    decreases k - from
  {
    if from < k && from < |s| {
      PipeAt(s, from + 1, k);
    }
  }

  /** Once the header is complete its length field is read back; before that, 0. */
  lemma LengthOfPrefix(m: Message, s: string)
    requires Framable(m)
    requires s <= Frame(m) || Frame(m) <= s
    ensures PayLoadLength(s) == if |s| >= HEADER then |Frame(m)| else 0
  {
    FrameShape(m);
    var f := Frame(m);
    if s != "" {
      assert forall i :: 0 <= i < |s| && i < |f| ==> s[i] == f[i];
      PipeAt(s, 0, 10);
      if |s| >= HEADER {
        assert s[2..10] == f[2..10];
        AtoiInvertsPad(|f|);
      }
    }
  }

  /** A proper prefix of a frame stays in the buffer untouched. */
  lemma DecodePartial(m: Message, s: string)
    requires Framable(m) && s <= Frame(m) && |s| < |Frame(m)|
    ensures Decode(s) == Decoded([], s)
  {
    LengthOfPrefix(m, s);
  }

  lemma DecodeUnfold(s: string, n: nat, m: Message)
    requires PayLoadLength(s) == n && HEADER < n <= |s| && s[n - 1] == '#'
    requires ParsePayload(CString(s[HEADER..n - 1])) == Some(m)
    ensures Decode(s) == Prepend([m], Decode(s[n..]))
  {
    hide PayLoadLength, ParsePayload, CString;
  }

  /** A complete frame at the front is consumed exactly. */
  lemma DecodeFrame(m: Message, rest: string)
    requires Framable(m)
    ensures Decode(Frame(m) + rest) == Prepend([m], Decode(rest))
  {
    hide Decode, PayLoadLength, ParsePayload, PrintPayload, CString, Frame;
    FrameShape(m);
    LengthOfPrefix(m, Frame(m) + rest);
    ParseInvertsPrint(m);
    PayloadTokens(m);
    PlainCString(PrintPayload(m), "-:;|");
    DecodeFront(Frame(m), PrintPayload(m), m, rest);
  }

  lemma DecodeFront(f: string, p: string, m: Message, rest: string)
    requires |f| == HEADER + |p| + 1 && f[HEADER..|f| - 1] == p && f[|f| - 1] == '#'
    requires PayLoadLength(f + rest) == |f| && CString(p) == p && ParsePayload(p) == Some(m)
    ensures Decode(f + rest) == Prepend([m], Decode(rest))
  {
    var s := f + rest;
    assert s[HEADER..|f| - 1] == p;
    assert s[|f|..] == rest;
    DecodeUnfold(s, |f|, m);
  }

  /** All the rest of the argument needs to know about a frame and its decoder. */
  ghost predicate Codes(decode: string -> Decoding, f: string, m: Message) {
    && f != ""
    && (forall s :: s <= f && |s| < |f| ==> decode(s) == Decoded([], s))
    && (forall rest :: decode(f + rest) == Prepend([m], decode(rest)))
  }

  ghost predicate AllCode(decode: string -> Decoding, fs: seq<string>, ms: seq<Message>) {
    && |fs| == |ms|
    && decode("") == Decoded([], "")
    && forall i {:trigger Codes(decode, fs[i], ms[i])} :: 0 <= i < |fs| ==> Codes(decode, fs[i], ms[i])
  }

  lemma FrameCodes(m: Message)
    requires Framable(m)
    ensures Codes(Decode, Frame(m), m)
  {
    FrameShape(m);
    forall s | s <= Frame(m) && |s| < |Frame(m)|
      ensures Decode(s) == Decoded([], s)
    {
      DecodePartial(m, s);
    }
    forall rest
      ensures Decode(Frame(m) + rest) == Prepend([m], Decode(rest))
    {
      DecodeFrame(m, rest);
    }
  }

  lemma FramesCode(ms: seq<Message>)
    requires AllFramable(ms)
    ensures AllCode(Decode, Frames(ms), ms) && NonEmpty(Frames(ms))
    ensures CARRIAGE_RETURN !in Print(ms)
  {
    forall i | 0 <= i < |ms|
      ensures Codes(Decode, Frames(ms)[i], ms[i]) && CARRIAGE_RETURN !in Frames(ms)[i]
    {
      FrameCodes(ms[i]);
      FrameHasNoCR(ms[i]);
    }
    FlattenHasNoCR(Frames(ms));
  }

  // ----------------------------------------------------- prefixes of the stream

  /** Decoding whole frames followed by a partial one yields those messages and that rest. */
  lemma {:induction false} DecodeRun(decode: string -> Decoding, fs: seq<string>, ms: seq<Message>,
                                     i: nat, j: nat, rest: string)
    requires AllCode(decode, fs, ms) && i <= j <= |ms| && PartialAt(fs, j, rest)
    ensures decode(Flatten(fs[i..j]) + rest) == Decoded(ms[i..j], rest)
    decreases j - i
  {
    if i == j {
      assert Flatten(fs[i..j]) + rest == rest;
      CodeTail(decode, fs, ms, j, rest);
    } else {
      DecodeRun(decode, fs, ms, i + 1, j, rest);
      RunHead(fs, i, j, rest);
      CodeHead(decode, fs, ms, i, Flatten(fs[i + 1..j]) + rest);
      assert ms[i..j] == [ms[i]] + ms[i + 1..j];
    }
  }

  lemma CodeTail(decode: string -> Decoding, fs: seq<string>, ms: seq<Message>, j: nat, rest: string)
    requires AllCode(decode, fs, ms) && PartialAt(fs, j, rest)
    ensures decode(rest) == Decoded([], rest)
  {
    if j < |ms| {
      assert Codes(decode, fs[j], ms[j]);
    }
  }

  lemma CodeHead(decode: string -> Decoding, fs: seq<string>, ms: seq<Message>, i: nat, tail: string)
    requires AllCode(decode, fs, ms) && i < |fs|
    ensures decode(fs[i] + tail) == Prepend([ms[i]], decode(tail))
  {
    assert Codes(decode, fs[i], ms[i]);
  }

  lemma RunHead(fs: seq<string>, i: nat, j: nat, rest: string)
    requires i < j <= |fs|
    ensures Flatten(fs[i..j]) + rest == fs[i] + (Flatten(fs[i + 1..j]) + rest)
  {
    FlattenHead(fs, i, j);
  }

  lemma {:induction false} FlattenHasNoCR(fs: seq<string>)
    requires forall i :: 0 <= i < |fs| ==> CARRIAGE_RETURN !in fs[i]
    ensures CARRIAGE_RETURN !in Flatten(fs)
  {
    if fs != [] {
      FlattenHasNoCR(fs[..|fs| - 1]);
    }
  }

  lemma NoTrim(all: string, before: string, chunk: string)
    requires CARRIAGE_RETURN !in all && before + chunk <= all && |chunk| >= 2
    ensures Trimmed(chunk) == chunk
  {
    assert chunk[|chunk| - 2] == (before + chunk)[|before + chunk| - 2];
    assert chunk[|chunk| - 2] == all[|before + chunk| - 2];
  }

  /** One more chunk completes the frames between the old and the new cut. */
  lemma FeedOne(fs: seq<string>, ms: seq<Message>, i: nat, held: string, j: nat, rest: string, chunk: string)
    requires AllCode(Decode, fs, ms) && PartialAt(fs, i, held) && PartialAt(fs, j, rest)
    requires Flatten(fs[..i]) + held + chunk == Flatten(fs[..j]) + rest
    ensures Prepend(ms[..i], Decode(held + chunk)) == Decoded(ms[..j], rest)
  {
    Between(fs, i, held, j, rest, chunk);
    DecodeRun(Decode, fs, ms, i, j, rest);
    assert ms[..j] == ms[..i] + ms[i..j];
  }

  // ----------------------------------------------------------- chunk independence

  lemma {:induction false} FeedPrefix(fs: seq<string>, ms: seq<Message>, chunks: seq<string>)
    returns (j: nat, rest: string)
    requires forall i :: 0 <= i < |chunks| ==> |chunks[i]| >= 2
    requires AllCode(Decode, fs, ms) && NonEmpty(fs) && CARRIAGE_RETURN !in Flatten(fs)
    requires Flatten(chunks) <= Flatten(fs)
    ensures PartialAt(fs, j, rest) && Flatten(chunks) == Flatten(fs[..j]) + rest
    ensures Feed("", chunks) == Decoded(ms[..j], rest)
  {
    j, rest := SplitPrefix(fs, Flatten(chunks));
    if chunks == [] {
      assert Flatten(fs[..0]) + "" == "";
      if fs != [] {
        assert fs[0] != "";
      }
      SplitUnique(fs, 0, "", j, rest);
    } else {
      var init, last := chunks[..|chunks| - 1], chunks[|chunks| - 1];
      var i, held := FeedPrefix(fs, ms, init);
      NoTrim(Flatten(fs), Flatten(init), last);
      FeedOne(fs, ms, i, held, j, rest, last);
    }
  }

  lemma FramesPrefix(ms: seq<Message>, j: nat)
    requires j <= |ms|
    ensures Frames(ms)[..j] == Frames(ms[..j])
  {
  }

  /** What any chunking of a prefix of the stream decodes to: the messages whose frames have
      arrived in full; the buffer holds the partial frame that follows them. */
  lemma FeedDecodesWholeFrames(ms: seq<Message>, chunks: seq<string>) returns (j: nat, rest: string)
    requires AllFramable(ms) && Flatten(chunks) <= Print(ms)
    requires forall i :: 0 <= i < |chunks| ==> |chunks[i]| >= 2
    ensures PartialAt(Frames(ms), j, rest) && Flatten(chunks) == Print(ms[..j]) + rest
    ensures Feed("", chunks) == Decoded(ms[..j], rest)
  {
    FramesCode(ms);
    j, rest := FeedPrefix(Frames(ms), ms, chunks);
    FramesPrefix(ms, j);
  }

  /** Chunk independence: any two ways of cutting the same bytes of a well-formed stream
      decode to the same messages and leave the same partial frame behind. */
  lemma ChunkIndependence(ms: seq<Message>, a: seq<string>, b: seq<string>)
    requires AllFramable(ms)
    requires forall i :: 0 <= i < |a| ==> |a[i]| >= 2
    requires forall i :: 0 <= i < |b| ==> |b[i]| >= 2
    requires Flatten(a) == Flatten(b) && Flatten(a) <= Print(ms)
    ensures Feed("", a) == Feed("", b)
    ensures Flatten(a) == Print(ms) ==> Feed("", a) == Decoded(ms, "")
  {
    FramesCode(ms);
    ChunksAgree(Frames(ms), ms, a, b);
  }

  lemma ChunksAgree(fs: seq<string>, ms: seq<Message>, a: seq<string>, b: seq<string>)
    requires AllCode(Decode, fs, ms) && NonEmpty(fs) && CARRIAGE_RETURN !in Flatten(fs)
    requires forall i :: 0 <= i < |a| ==> |a[i]| >= 2
    requires forall i :: 0 <= i < |b| ==> |b[i]| >= 2
    requires Flatten(a) == Flatten(b) && Flatten(a) <= Flatten(fs)
    ensures Feed("", a) == Feed("", b)
    ensures Flatten(a) == Flatten(fs) ==> Feed("", a) == Decoded(ms, "")
  {
    var i, x := FeedPrefix(fs, ms, a);
    var j, y := FeedPrefix(fs, ms, b);
    SplitUnique(fs, i, x, j, y);
    if Flatten(a) == Flatten(fs) {
      assert ms[..|ms|] == ms && fs[..|fs|] == fs;
      assert Flatten(fs) + "" == Flatten(fs);
      SplitUnique(fs, i, x, |ms|, "");
    }
  }

  // ------------------------------------------------------------ telnet line ends

  /** The result when the bytes `p` are appended to what is left, and decoded. */
  function Appended(r: Decoding, p: string): Decoding {
    match r
    case Undefined => Undefined
    case Decoded(ms, rest) => Prepend(ms, Decode(rest + p))
  }

  lemma FeedLast(chunks: seq<string>, chunk: string, kept: string)
    requires |chunk| >= 2 && forall i :: 0 <= i < |chunks| ==> |chunks[i]| >= 2
    requires Trimmed(chunk) == kept
    ensures Feed("", chunks + [chunk]) == Appended(Feed("", chunks), kept)
  {
    assert (chunks + [chunk])[..|chunks|] == chunks;
  }

  /** A chunk that ends in a carriage return and one more byte counts without these two. */
  lemma LineEndIsDropped(chunks: seq<string>, p: string, x: char)
    requires forall i :: 0 <= i < |chunks| ==> |chunks[i]| >= 2
    ensures Feed("", chunks + [p + [CARRIAGE_RETURN, x]]) == Appended(Feed("", chunks), p)
  {
    var chunk := p + [CARRIAGE_RETURN, x];
    assert chunk[|chunk| - 2] == CARRIAGE_RETURN && chunk[..|chunk| - 2] == p;
    FeedLast(chunks, chunk, p);
  }

  /** Any other chunk counts as it is. */
  lemma OtherChunksAreKept(chunks: seq<string>, p: string)
    requires |p| >= 2 && p[|p| - 2] != CARRIAGE_RETURN && forall i :: 0 <= i < |chunks| ==> |chunks[i]| >= 2
    ensures Feed("", chunks + [p]) == Appended(Feed("", chunks), p)
  {
    FeedLast(chunks, p, p);
  }

  /** One frame a line, each line ended by a carriage return and some other byte. */
  function Lines(ms: seq<Message>, ends: seq<char>): (lines: seq<string>)
    requires |ends| == |ms|
    ensures forall i :: 0 <= i < |lines| ==> |lines[i]| >= 2
  {
    seq(|ms|, i requires 0 <= i < |ms| => Frame(ms[i]) + [CARRIAGE_RETURN, ends[i]])
  }

  lemma LinesSnoc(ms: seq<Message>, ends: seq<char>, n: nat)
    requires |ends| == |ms| == n + 1
    ensures Lines(ms, ends) == Lines(ms[..n], ends[..n]) + [Frame(ms[n]) + [CARRIAGE_RETURN, ends[n]]]
  {
    hide Frame;
  }

  lemma NoLines()
    ensures Feed("", Lines([], [])) == Decoded([], "")
  {
    assert Lines([], []) == [];
  }

  /** A telnet session that sends one frame a line gets every message through. */
  lemma {:induction false} TelnetLines(ms: seq<Message>, ends: seq<char>)
    requires AllFramable(ms) && |ends| == |ms|
    ensures Feed("", Lines(ms, ends)) == Decoded(ms, "")
  {
    hide Decode, Frame, Lines, Feed, Framable;
    if ms == [] {
      NoLines();
      assert ends == [];
    } else {
      var n := |ms| - 1;
      assert AllFramable(ms[..n]) && Framable(ms[n]);
      hide AllFramable;
      TelnetLines(ms[..n], ends[..n]);
      LinesSnoc(ms, ends, n);
      LineEndIsDropped(Lines(ms[..n], ends[..n]), Frame(ms[n]), ends[n]);
      WholeFrame(ms[n]);
      assert ms == ms[..n] + [ms[n]];
    }
  }

  lemma WholeFrame(m: Message)
    requires Framable(m)
    ensures Decode("" + Frame(m)) == Decoded([m], "")
  {
    hide Decode, Frame;
    assert "" + Frame(m) == Frame(m) + "";
    DecodeFrame(m, "");
    NothingToDecode();
  }

  lemma NothingToDecode()
    ensures Decode("") == Decoded([], "")
  {
  }

  // ------------------------------------------------------ what holds decoding up

  lemma {:induction false} PipeIff(s: string, from: nat)
    requires from <= |s|
    ensures PipePosition(s, from) > 0
            <==> exists p :: from <= p < |s| && p > 0 && s[p] == '|' && PlainUpTo(s, from, p)
    decreases |s| - from
  {
    var k := PipePosition(s, from);
    if from < |s| && s[from] != NUL && s[from] != '|' {
      PipeIff(s, from + 1);
      if k > 0 {
        var p :| from + 1 <= p < |s| && p > 0 && s[p] == '|' && PlainUpTo(s, from + 1, p);
        assert PlainUpTo(s, from, p);
      }
      forall p | from <= p < |s| && p > 0 && s[p] == '|' && PlainUpTo(s, from, p)
        ensures PlainUpTo(s, from + 1, p)
      {
      }
    } else if from < |s| && s[from] == '|' {
      assert PlainUpTo(s, from, from);
    }
  }

  /** Neither a pipe nor a terminator. */
  ghost predicate PlainUpTo(s: string, from: nat, to: nat) {
    forall i :: from <= i < to && i < |s| ==> s[i] != '|' && s[i] != NUL
  }

  /** A frame of `n` bytes is complete at the front of the buffer: it starts with `L`, a pipe
      stands behind it before any terminator, the eight bytes from the third on (or as many as
      there are) declare `n`, and the `n`-th byte is there and is the end mark. */
  ghost predicate FrameAtFront(s: string, n: int) {
    && s != "" && s[0] == 'L'
    && (exists p :: 0 < p < |s| && s[p] == '|' && PlainUpTo(s, 0, p))
    && n == Atoi(if |s| <= 2 then "" else if |s| <= 10 then s[2..] else s[2..10])
    && 0 < n <= |s| && s[n - 1] == '#'
  }

  /** Decoding gets anywhere exactly when a complete frame is at the front; otherwise the buffer
      stays as it is. A wrong end mark, in particular, holds everything behind it up. */
  lemma DecodesIffFrameAtFront(s: string)
    requires Decode(s).Decoded?
    ensures Decode(s).messages != [] <==> exists n :: FrameAtFront(s, n)
    ensures Decode(s).messages == [] ==> Decode(s).rest == s
  {
    PipeIff(s, 0);
    var n := PayLoadLength(s);
    if Decode(s).messages != [] {
      assert FrameAtFront(s, n);
    }
    if exists k :: FrameAtFront(s, k) {
      var k :| FrameAtFront(s, k);
      assert k == n;
    }
  }
}
