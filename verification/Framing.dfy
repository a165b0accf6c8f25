/** The wire format: tokens, payloads, frames, and the incremental framer. */
module Framing {
  import opened Messages
  import opened Numerals

  // ---------------------------------------------------------------------- tokens

  function SkipDelims(s: string, d: char): string {
    if s != "" && s[0] == d then SkipDelims(s[1..], d) else s
  }

  /** The length of the longest delimiter-free prefix. */
  function TokenLength(s: string, d: char): (k: nat)
    ensures k <= |s|
    ensures s != "" && s[0] != d ==> k > 0
  {
    if s == "" || s[0] == d then 0 else 1 + TokenLength(s[1..], d)
  }

  /** One `strtok` call with a single delimiter (section 7.24.5.8): the next token
      and the text left for the following call. */
  function NextToken(s: string, d: char): (r: Option<(string, string)>)
    ensures r.Some? ==> |r.value.1| < |s|
  {
    SkipLength(s, d);
    var t := SkipDelims(s, d);
    if t == "" then None
    else
      var k := TokenLength(t, d);
      Some((t[..k], if k < |t| then t[k + 1..] else ""))
  }

  lemma {:induction false} SkipLength(s: string, d: char)
    ensures |SkipDelims(s, d)| <= |s|
    ensures SkipDelims(s, d) != "" ==> SkipDelims(s, d)[0] != d
  {
    if s != "" && s[0] == d {
      SkipLength(s[1..], d);
    }
  }

  /** Everything a `strtok` loop collects. */
  function Tokens(s: string, d: char): seq<string>
    decreases |s|
  {
    match NextToken(s, d)
    case None => []
    case Some((token, rest)) => [token] + Tokens(rest, d)
  }

  function Join(parts: seq<string>, d: char): string {
    if parts == [] then ""
    else if |parts| == 1 then parts[0]
    else parts[0] + [d] + Join(parts[1..], d)
  }

  predicate Free(s: string, d: char) {
    d !in s
  }

  lemma {:induction false} TokenLengthStops(p: string, d: char, rest: string)
    requires Free(p, d)
    ensures TokenLength(p, d) == |p|
    ensures TokenLength(p + [d] + rest, d) == |p|
  {
    if p == "" {
      assert (p + [d] + rest)[0] == d;
    } else {
      assert p[0] in p && Free(p[1..], d);
      assert (p + [d] + rest)[1..] == p[1..] + [d] + rest;
      TokenLengthStops(p[1..], d, rest);
    }
  }

  lemma NextTokenOf(p: string, d: char, rest: string)
    requires p != "" && Free(p, d)
    ensures NextToken(p, d) == Some((p, ""))
    ensures NextToken(p + [d] + rest, d) == Some((p, rest))
  {
    assert p[0] in p;
    TokenLengthStops(p, d, rest);
    var s := p + [d] + rest;
    assert SkipDelims(p, d) == p && SkipDelims(s, d) == s;
    assert p[..|p|] == p && s[..|p|] == p && s[|p| + 1..] == rest;
  }

  /** Tokenising inverts joining when every part is non-empty and free of the delimiter. */
  lemma {:induction false} TokensOfJoin(parts: seq<string>, d: char)
    requires forall i :: 0 <= i < |parts| ==> parts[i] != "" && Free(parts[i], d)
    ensures Tokens(Join(parts, d), d) == parts
  {
    if parts == [] {
      assert NextToken("", d) == None;
    } else if |parts| == 1 {
      NextTokenOf(parts[0], d, "");
      assert NextToken("", d) == None;
      assert parts == [parts[0]];
    } else {
      NextTokenOf(parts[0], d, Join(parts[1..], d));
      TokensOfJoin(parts[1..], d);
      assert parts == [parts[0]] + parts[1..];
    }
  }

  lemma DelimInFront(s: string, d: char)
    ensures Tokens([d] + s, d) == Tokens(s, d)
  {
    assert ([d] + s)[1..] == s;
    assert SkipDelims([d] + s, d) == SkipDelims(s, d);
  }

  lemma FirstToken(p: string, d: char, rest: string)
    requires p != "" && Free(p, d)
    ensures Tokens(p, d) == [p] && Tokens(p + [d] + rest, d) == [p] + Tokens(rest, d)
  {
    NextTokenOf(p, d, rest);
    NoTokens(d);
  }

  lemma NoTokens(d: char)
    ensures Tokens("", d) == []
  {
    assert NextToken("", d) == None;
  }

  /** A delimiter separates what stands before it from what stands behind it, and nothing else:
      neighbouring delimiters and those at either end yield no tokens. */
  lemma {:induction false} TokensConcat(a: string, d: char, b: string)
    ensures Tokens(a + [d] + b, d) == Tokens(a, d) + Tokens(b, d)
    decreases |a|
  {
    hide Tokens;
    var s := a + [d] + b;
    if a == "" {
      NoTokens(d);
      DelimInFront(b, d);
      assert s == [d] + b;
    } else if a[0] == d {
      TokensConcat(a[1..], d, b);
      assert a == [d] + a[1..] && s == [d] + (a[1..] + [d] + b);
      DelimInFront(a[1..], d);
      DelimInFront(a[1..] + [d] + b, d);
    } else {
      var k := TokenLength(a, d);
      var p := a[..k];
      TokenIsFree(a, d);
      if k == |a| {
        assert p == a;
        FirstToken(a, d, b);
      } else {
        var rest := a[k + 1..];
        assert a == p + [d] + rest && s == p + [d] + (rest + [d] + b);
        FirstToken(p, d, rest);
        FirstToken(p, d, rest + [d] + b);
        TokensConcat(rest, d, b);
      }
    }
  }

  lemma {:induction false} TokenIsFree(s: string, d: char)
    ensures var k := TokenLength(s, d);
            Free(s[..k], d) && (k < |s| ==> s[k] == d)
  {
    if s != "" && s[0] != d {
      TokenIsFree(s[1..], d);
      assert s[..TokenLength(s, d)] == [s[0]] + s[1..][..TokenLength(s[1..], d)];
    }
  }

  // -------------------------------------------------------------------- payloads

  /** `None` marks text on which the parser leaves defined behaviour: it indexes past its
      token vectors, or converts a number that does not fit an `int`. */
  function ParseLabel(s: string): Option<Label> {
    var parts := Tokens(s, ':');
    if |parts| < 2 || !IsInt(Atoi(parts[1])) then None
    else Some(Label(StrToUl(parts[0]), Atoi(parts[1])))
  }

  function ParseLabels(tokens: seq<string>): Option<seq<Label>> {
    if tokens == [] then Some([])
    else
      match (ParseLabels(tokens[..|tokens| - 1]), ParseLabel(tokens[|tokens| - 1]))
      case (Some(ls), Some(l)) => Some(ls + [l])
      case _ => None
  }

  function ParsePayload(s: string): Option<Message> {
    var parts := Tokens(s, '|');
    if |parts| < 3 || !IsInt(Atoi(parts[0])) then None
    else
      match ParseLabels(Tokens(parts[2], ';'))
      case Some(ls) => Some(Message(Atoi(parts[0]), StrToUl(parts[1]), ls))
      case None => None
  }

  /** The C string at the start of a byte sequence. */
  function CString(s: string): string {
    if s == "" || s[0] == NUL then "" else [s[0]] + CString(s[1..])
  }

  function PrintLabel(l: Label): string {
    PrintNat(l.ts) + ":" + PrintInt(l.value)
  }

  function PrintAll(ls: seq<Label>): seq<string> {
    seq(|ls|, i requires 0 <= i < |ls| => PrintLabel(ls[i]))
  }

  /** A lone `;` stands for no labels. */
  function PrintLabels(ls: seq<Label>): string {
    if ls == [] then ";" else Join(PrintAll(ls), ';')
  }

  function Fields(m: Message): seq<string> {
    [PrintInt(m.partition), PrintNat(m.heartbeat), PrintLabels(m.labels)]
  }

  function PrintPayload(m: Message): string {
    Join(Fields(m), '|')
  }

  ghost predicate LabelInRange(l: Label) {
    l.ts <= ULONG_MAX && IsInt(l.value)
  }

  /** Timestamps fit the receiver's 64-bit word, ids and values its 32-bit `int`. */
  ghost predicate InRange(m: Message) {
    && IsInt(m.partition)
    && m.heartbeat <= ULONG_MAX
    && forall i :: 0 <= i < |m.labels| ==> LabelInRange(m.labels[i])
  }

  /** Only digits and the given punctuation occur. */
  ghost predicate Plain(s: string, extra: string) {
    forall i :: 0 <= i < |s| ==> IsDigit(s[i]) || s[i] in extra
  }

  lemma {:induction false} PlainCString(s: string, extra: string)
    requires Plain(s, extra) && NUL !in extra
    ensures CString(s) == s
  {
    if s != "" {
      PlainCString(s[1..], extra);
    }
  }

  lemma PrintIntPlain(n: int)
    ensures Plain(PrintInt(n), "-")
  {
  }

  lemma PrintLabelPlain(l: Label)
    ensures Plain(PrintLabel(l), "-:") && PrintLabel(l) != ""
    ensures Tokens(PrintLabel(l), ':') == [PrintNat(l.ts), PrintInt(l.value)]
  {
    PrintIntPlain(l.value);
    var parts := [PrintNat(l.ts), PrintInt(l.value)];
    assert Join(parts[1..], ':') == PrintInt(l.value);
    assert Join(parts, ':') == PrintLabel(l);
    TokensOfJoin(parts, ':');
  }

  lemma {:induction false} JoinPlain(parts: seq<string>, d: char, extra: string)
    requires d in extra && forall i :: 0 <= i < |parts| ==> Plain(parts[i], extra)
    ensures Plain(Join(parts, d), extra)
  {
    if |parts| > 1 {
      JoinPlain(parts[1..], d, extra);
    }
  }

  lemma {:induction false} JoinNonEmpty(parts: seq<string>, d: char)
    requires parts != [] && parts[0] != ""
    ensures Join(parts, d) != ""
  {
  }

  lemma ParseLabelInvertsPrint(l: Label)
    requires LabelInRange(l)
    ensures ParseLabel(PrintLabel(l)) == Some(l)
  {
    PrintLabelPlain(l);
    StrToUlInvertsPrint(l.ts);
    AtoiInvertsPrint(l.value);
  }

  lemma {:induction false} ParseLabelsOf(tokens: seq<string>, ls: seq<Label>)
    requires |tokens| == |ls|
    requires forall i {:trigger tokens[i]} :: 0 <= i < |ls| ==> ParseLabel(tokens[i]) == Some(ls[i])
    ensures ParseLabels(tokens) == Some(ls)
  {
    hide ParseLabel;
    if ls != [] {
      var n := |ls| - 1;
      ParseLabelsOf(tokens[..n], ls[..n]);
      assert ls == ls[..n] + [ls[n]];
    }
  }

  lemma ParseLabelsInvertsPrint(ls: seq<Label>)
    requires forall i :: 0 <= i < |ls| ==> LabelInRange(ls[i])
    ensures ParseLabels(PrintAll(ls)) == Some(ls)
  {
    forall i | 0 <= i < |ls|
      ensures ParseLabel(PrintAll(ls)[i]) == Some(ls[i])
    {
      ParseLabelInvertsPrint(ls[i]);
    }
    ParseLabelsOf(PrintAll(ls), ls);
  }

  lemma LabelTokens(ls: seq<Label>)
    ensures Plain(PrintLabels(ls), "-:;") && PrintLabels(ls) != ""
    ensures Tokens(PrintLabels(ls), ';') == PrintAll(ls)
  {
    if ls == [] {
      assert SkipDelims(";", ';') == SkipDelims("", ';') by {
        assert ";"[1..] == "";
      }
      assert NextToken(";", ';') == None;
    } else {
      forall i | 0 <= i < |ls|
        ensures Plain(PrintAll(ls)[i], "-:;") && PrintAll(ls)[i] != "" && Free(PrintAll(ls)[i], ';')
      {
        PrintLabelPlain(ls[i]);
      }
      TokensOfJoin(PrintAll(ls), ';');
      JoinPlain(PrintAll(ls), ';', "-:;");
      JoinNonEmpty(PrintAll(ls), ';');
    }
  }

  lemma FieldsPlain(m: Message)
    ensures forall i :: 0 <= i < 3 ==> Plain(Fields(m)[i], "-:;") && Fields(m)[i] != "" && Free(Fields(m)[i], '|')
  {
    PrintIntPlain(m.partition);
    LabelTokens(m.labels);
  }

  lemma PayloadTokens(m: Message)
    ensures Plain(PrintPayload(m), "-:;|")
    ensures |PrintPayload(m)| >= 5
    ensures Tokens(PrintPayload(m), '|') == Fields(m)
  {
    var parts := Fields(m);
    FieldsPlain(m);
    TokensOfJoin(parts, '|');
    JoinPlain(parts, '|', "-:;|");
    JoinOfThree(parts[0], parts[1], parts[2], '|');
  }

  lemma JoinOfThree(a: string, b: string, c: string, d: char)
    ensures Join([a, b, c], d) == a + [d] + (b + [d] + c)
  {
    assert [a, b, c][1..] == [b, c] && [b, c][1..] == [c];
    assert Join([c], d) == c;
    assert Join([b, c], d) == b + [d] + c;
  }

  /** Parsing a printed payload returns the message. */
  lemma ParseInvertsPrint(m: Message)
    requires InRange(m)
    ensures ParsePayload(PrintPayload(m)) == Some(m)
  {
    PayloadTokens(m);
    LabelTokens(m.labels);
    ParseLabelsInvertsPrint(m.labels);
    AtoiInvertsPrint(m.partition);
    StrToUlInvertsPrint(m.heartbeat);
  }

  /** Fields behind the third are ignored. */
  lemma ExtraFieldsIgnored(m: Message, junk: string)
    requires InRange(m)
    ensures ParsePayload(PrintPayload(m) + "|" + junk) == Some(m)
  {
    hide Tokens, PrintPayload, ParseLabels;
    ParseInvertsPrint(m);
    TokensConcat(PrintPayload(m), '|', junk);
    assert "|" == ['|'];
  }
}
