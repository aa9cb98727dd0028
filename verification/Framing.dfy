/**
 * The one-shot reference parser of a byte stream, and which messages survive
 * the trip. It knows nothing of buffers, chunks or pending reads.
 */
module Framing {
  import opened Bytes
  import opened Messages

  datatype Option<+T> = None | Some(value: T)

  // ---- finding a terminator

  ghost predicate OccursAt(t: seq<byte>, s: seq<byte>, i: int) {
    0 <= i <= |s| - |t| && s[i..i + |t|] == t
  }

  lemma ShiftOccurs(t: seq<byte>, s: seq<byte>)
    requires s != []
    ensures forall i :: 0 < i ==> OccursAt(t, s, i) == OccursAt(t, s[1..], i - 1)
  {}

  /** The place of the first occurrence of `t`, by which `async_read_until` completes. */
  function First(t: seq<byte>, s: seq<byte>): (r: Option<nat>)
    ensures r.None? ==> forall i :: !OccursAt(t, s, i)
    ensures r.Some? ==> OccursAt(t, s, r.value) && forall i :: 0 <= i < r.value ==> !OccursAt(t, s, i)
  {
    if |s| < |t| then None
    else if s[..|t|] == t then Some(0)
    else
      ShiftOccurs(t, s);
      match First(t, s[1..])
      case None => None
      case Some(i) => Some(i + 1)
  }

  lemma FirstIs(t: seq<byte>, s: seq<byte>, i: nat)
    requires OccursAt(t, s, i) && forall j :: 0 <= j < i ==> !OccursAt(t, s, j)
    ensures First(t, s) == Some(i)
  {}

  lemma OccursInPrefix(t: seq<byte>, s: seq<byte>, x: seq<byte>, i: int)
    requires i <= |s| - |t|
    ensures OccursAt(t, s, i) == OccursAt(t, s + x, i)
  {}

  lemma FirstExtends(t: seq<byte>, s: seq<byte>, x: seq<byte>)
    requires First(t, s).Some?
    ensures First(t, s + x) == First(t, s)
  {
    var i := First(t, s).value;
    forall j | 0 <= j <= i
      ensures OccursAt(t, s, j) == OccursAt(t, s + x, j)
    {
      OccursInPrefix(t, s, x, j);
    }
    FirstIs(t, s + x, i);
  }

  // ---- one frame, then all of them

  datatype Frame = Incomplete | Bad(error: Error) | Whole(message: Message, length: nat)

  /** How many octets the first frame of `s` takes and where its payload starts, once it is all there. */
  function Extent(p: Protocol, s: seq<byte>): (r: Option<(nat, nat)>)
    ensures r.Some? ==> r.value.0 <= r.value.1 <= |s| && r.value.1 > 0
  {
    if p.Basic? then
      if |s| < 4 || |s| < 4 + NetworkToHost(s) as int then None else Some((4, 4 + NetworkToHost(s) as int))
    else
      match First(Terminator(p), s)
      case None => None
      case Some(i) => Some((0, i + |Terminator(p)|))
  }

  function NextFrame(p: Protocol, s: seq<byte>): (r: Frame)
    ensures r.Whole? ==> 0 < r.length <= |s|
  {
    match Extent(p, s)
    case None => Incomplete
    case Some((a, b)) =>
      match Decode(p, s[a..b])
      case Err(e) => Bad(e)
      case Ok(m) => Whole(m, b)
  }

  datatype Parsed = Parsed(messages: seq<Message>, rest: seq<byte>, error: Option<Error>)

  function Prepend(ms: seq<Message>, r: Parsed): Parsed {
    r.(messages := ms + r.messages)
  }

  /** All frames of a stream, up to the first malformed one. */
  function Parse(p: Protocol, s: seq<byte>): Parsed
    decreases |s|
  {
    match NextFrame(p, s)
    case Incomplete => Parsed([], s, None)
    case Bad(e) => Parsed([], s, Some(e))
    case Whole(m, n) => Prepend([m], Parse(p, s[n..]))
  }

  lemma ExtentExtends(p: Protocol, s: seq<byte>, x: seq<byte>)
    requires Extent(p, s).Some?
    ensures Extent(p, s + x) == Extent(p, s)
  {
    if !p.Basic? {
      FirstExtends(Terminator(p), s, x);
    }
  }

  lemma FrameExtends(p: Protocol, s: seq<byte>, x: seq<byte>)
    requires !NextFrame(p, s).Incomplete?
    ensures NextFrame(p, s + x) == NextFrame(p, s)
  {
    ExtentExtends(p, s, x);
    var (a, b) := Extent(p, s).value;
    assert (s + x)[a..b] == s[a..b];
  }

  /** Going on with `x` where the parse `r` stopped; a malformed frame stops it for good. */
  function Continue(p: Protocol, r: Parsed, x: seq<byte>): Parsed {
    if r.error.None? then Prepend(r.messages, Parse(p, r.rest + x)) else r.(rest := r.rest + x)
  }

  lemma PrependContinue(ms: seq<Message>, p: Protocol, r: Parsed, x: seq<byte>)
    ensures Prepend(ms, Continue(p, r, x)) == Continue(p, Prepend(ms, r), x)
  {}

  /** More input never changes what was parsed; it only continues where the parse stood. */
  lemma {:induction false} ParseExtends(p: Protocol, s: seq<byte>, x: seq<byte>)
    ensures Parse(p, s + x) == Continue(p, Parse(p, s), x)
    decreases |s|
  {
    hide NextFrame;
    var f := NextFrame(p, s);
    if f.Whole? {
      var tail := s[f.length..];
      calc {
        Parse(p, s + x);
        { FrameExtends(p, s, x); assert (s + x)[f.length..] == tail + x; }
        Prepend([f.message], Parse(p, tail + x));
        { ParseExtends(p, tail, x); }
        Prepend([f.message], Continue(p, Parse(p, tail), x));
        { PrependContinue([f.message], p, Parse(p, tail), x); }
        Continue(p, Prepend([f.message], Parse(p, tail)), x);
        Continue(p, Parse(p, s), x);
      }
    } else if f.Bad? {
      FrameExtends(p, s, x);
    } else {
      assert [] + Parse(p, s + x).messages == Parse(p, s + x).messages;
    }
  }

  lemma PrependTwice(a: seq<Message>, b: seq<Message>, r: Parsed)
    ensures Prepend(a, Prepend(b, r)) == Prepend(a + b, r)
  {}

  /** A prefix of a stream parses to a prefix of the messages. */
  lemma ParseMonotone(p: Protocol, s: seq<byte>, t: seq<byte>)
    requires s <= t
    ensures Parse(p, s).messages <= Parse(p, t).messages
  {
    ParseExtends(p, s, t[|s|..]);
    assert s + t[|s|..] == t;
  }

  // ---- framability

  /** Contents the protocol can carry in one frame. */
  predicate Fits(p: Protocol, c: seq<byte>) {
    match p
    case Line => forall i :: 0 <= i < |c| ==> c[i] != LF
    case Telnet => forall i :: 0 <= i < |c| - 1 ==> !(c[i] == CR && c[i + 1] == LF)
    case Basic => |c| + 5 < WORD
  }

  predicate Framable(p: Protocol, m: Message) {
    Fits(p, m.contents)
  }

  lemma TextFramable(p: Protocol, m: Message)
    requires !p.Basic?
    ensures Framable(p, m) <==> forall i :: !OccursAt(Terminator(p), m.contents, i)
  {
    var c, t := m.contents, Terminator(p);
    if i: int :| OccursAt(t, c, i) {
      assert c[i] == c[i..i + |t|][0] && c[i + |t| - 1] == c[i..i + |t|][|t| - 1];
    } else if i: int :| 0 <= i <= |c| - |t| && c[i] == t[0] && c[i + |t| - 1] == t[|t| - 1] {
      assert c[i..i + |t|] == t;
      assert OccursAt(t, c, i);
    }
  }

  /** The terminator that ends a framable text is the first one, even right behind a lone CR. */
  lemma FirstTerminator(p: Protocol, m: Message, x: seq<byte>)
    requires !p.Basic? && Framable(p, m)
    ensures First(Terminator(p), Encode(p, m) + x) == Some(|m.contents|)
  {
    var c, t := m.contents, Terminator(p);
    var s := Encode(p, m) + x;
    TextFramable(p, m);
    assert s == c + (t + x);
    forall i | 0 <= i < |c|
      ensures !OccursAt(t, s, i)
    {
      if i + |t| <= |c| {
        OccursInPrefix(t, c, t + x, i);
      } else {
        assert s[i..i + |t|][1] == s[i + 1] == CR;
      }
    }
    assert s[|c|..|c| + |t|] == t;
    FirstIs(t, s, |c|);
  }

  lemma EncodedBasicFrame(m: Message, x: seq<byte>)
    requires Framable(Basic, m)
    ensures Extent(Basic, Encode(Basic, m) + x) == Some((4 as nat, |Encode(Basic, m)| as nat))
  {
    var e, n := Encode(Basic, m), |Body(m)| as uint32;
    hide HostToNetwork;
    WordRoundTrip(n);
    assert (e + x)[..4] == HostToNetwork(n);
    assert NetworkToHost(e + x) == NetworkToHost((e + x)[..4]);
  }

  lemma EncodedFrame(p: Protocol, m: Message, x: seq<byte>)
    requires Framable(p, m)
    ensures NextFrame(p, Encode(p, m) + x) == Whole(Received(p, m), |Encode(p, m)|)
  {
    hide Decode, HostToNetwork;
    var e := Encode(p, m);
    DecodeUndoesEncode(p, m);
    if p.Basic? {
      EncodedBasicFrame(m, x);
      assert (e + x)[4..|e|] == Payload(p, m);
    } else {
      FirstTerminator(p, m, x);
      assert (e + x)[0..|e|] == e;
    }
  }

  /** A message survives when its own encoding, followed by anything, parses back to it first. */
  ghost predicate Survives(p: Protocol, m: Message) {
    forall x :: NextFrame(p, Encode(p, m) + x) == Whole(Received(p, m), |Encode(p, m)|)
  }

  lemma UnframableIsLost(p: Protocol, m: Message)
    requires !Framable(p, m)
    ensures NextFrame(p, Encode(p, m)) != Whole(Received(p, m), |Encode(p, m)|)
  {
    var e, c := Encode(p, m), m.contents;
    if p.Basic? {
      var n := (|Body(m)| % WORD) as uint32;
      WordRoundTrip(n);
      assert e[..4] == HostToNetwork(n);
      assert NetworkToHost(e) == n;
    } else {
      TextFramable(p, m);
      var t := Terminator(p);
      var i :| OccursAt(t, c, i);
      assert e[i..i + |t|] == c[i..i + |t|];
      assert OccursAt(t, e, i);
    }
  }

  /** Exact framability: the check a sender could make beforehand decides survival, both ways. */
  lemma SurvivesIffFramable(p: Protocol, m: Message)
    ensures Survives(p, m) <==> Framable(p, m)
  {
    if Framable(p, m) {
      forall x
        ensures NextFrame(p, Encode(p, m) + x) == Whole(Received(p, m), |Encode(p, m)|)
      {
        EncodedFrame(p, m, x);
      }
    } else {
      UnframableIsLost(p, m);
      assert Encode(p, m) + [] == Encode(p, m);
    }
  }

  /** What becomes of a basic message too long for its length prefix: it is cut off, or not even that is left. */
  lemma OversizedIsCut(m: Message)
    requires !Framable(Basic, m)
    ensures var k := |Body(m)| % WORD;
            k < |Body(m)| && NextFrame(Basic, Encode(Basic, m)) ==
            if k < 5 then Bad(TooSmall(k)) else Whole(m.(contents := m.contents[..k - 5]), 4 + k)
  {
    var k := |Body(m)| % WORD;
    var e, body := Encode(Basic, m), Body(m)[..k];
    WordRoundTrip(k as uint32);
    WordRoundTrip(m.id);
    hide HostToNetwork;
    assert e[..4] == HostToNetwork(k as uint32);
    assert NetworkToHost(e) == NetworkToHost(e[..4]);
    assert e[4..4 + k] == body;
    if k >= 5 {
      assert body == Body(m.(contents := m.contents[..k - 5]));
      assert body[1..][..4] == HostToNetwork(m.id);
      assert NetworkToHost(body[1..]) == NetworkToHost(body[1..][..4]);
      assert body[5..] == m.contents[..k - 5];
    }
  }

  // ---- whole streams

  function Encodings(p: Protocol, ms: seq<Message>): seq<seq<byte>> {
    seq(|ms|, i requires 0 <= i < |ms| => Encode(p, ms[i]))
  }

  function EncodeAll(p: Protocol, ms: seq<Message>): seq<byte> {
    Concat(Encodings(p, ms))
  }

  lemma EncodeAllCons(p: Protocol, m: Message, ms: seq<Message>)
    ensures EncodeAll(p, [m] + ms) == Encode(p, m) + EncodeAll(p, ms)
  {
    assert Encodings(p, [m] + ms)[1..] == Encodings(p, ms);
  }

  function ReceivedAll(p: Protocol, ms: seq<Message>): (r: seq<Message>)
    ensures |r| == |ms|
  {
    seq(|ms|, i requires 0 <= i < |ms| => Received(p, ms[i]))
  }

  predicate AllFramable(p: Protocol, ms: seq<Message>) {
    forall i :: 0 <= i < |ms| ==> Framable(p, ms[i])
  }

  lemma ParseOneEncoded(p: Protocol, m: Message, x: seq<byte>)
    requires Framable(p, m)
    ensures Parse(p, Encode(p, m) + x) == Prepend([Received(p, m)], Parse(p, x))
  {
    var e := Encode(p, m);
    EncodedFrame(p, m, x);
    assert (e + x)[|e|..] == x;
  }

  /** The parser inverts the encoder, whatever follows on the stream. */
  lemma {:induction false} ParseEncoded(p: Protocol, ms: seq<Message>, x: seq<byte>)
    requires AllFramable(p, ms)
    ensures Parse(p, EncodeAll(p, ms) + x) == Prepend(ReceivedAll(p, ms), Parse(p, x))
  {
    hide Encode, NextFrame;
    if ms == [] {
      assert [] + x == x;
    } else {
      var m, tail := ms[0], EncodeAll(p, ms[1..]);
      assert [m] + ms[1..] == ms;
      calc {
        Parse(p, EncodeAll(p, ms) + x);
        { EncodeAllCons(p, m, ms[1..]); assert Encode(p, m) + tail + x == Encode(p, m) + (tail + x); }
        Parse(p, Encode(p, m) + (tail + x));
        { ParseOneEncoded(p, m, tail + x); }
        Prepend([Received(p, m)], Parse(p, tail + x));
        { ParseEncoded(p, ms[1..], x); }
        Prepend([Received(p, m)], Prepend(ReceivedAll(p, ms[1..]), Parse(p, x)));
        { PrependTwice([Received(p, m)], ReceivedAll(p, ms[1..]), Parse(p, x)); }
        Prepend([Received(p, m)] + ReceivedAll(p, ms[1..]), Parse(p, x));
        { assert ReceivedAll(p, ms) == [Received(p, m)] + ReceivedAll(p, ms[1..]); }
        Prepend(ReceivedAll(p, ms), Parse(p, x));
      }
    }
  }

  lemma EmptyStream(p: Protocol)
    ensures Parse(p, []) == Parsed([], [], None)
  {}

  lemma ParseAllEncoded(p: Protocol, ms: seq<Message>)
    requires AllFramable(p, ms)
    ensures Parse(p, EncodeAll(p, ms)) == Parsed(ReceivedAll(p, ms), [], None)
  {
    ParseEncoded(p, ms, []);
    EmptyStream(p);
    assert EncodeAll(p, ms) + [] == EncodeAll(p, ms);
  }

  /** Unique decodability: a stream determines the framable messages that were written to it. */
  lemma UniquelyDecodable(p: Protocol, ms: seq<Message>, ns: seq<Message>)
    requires AllFramable(p, ms) && AllFramable(p, ns)
    requires EncodeAll(p, ms) == EncodeAll(p, ns)
    ensures |ms| == |ns|
    ensures forall i :: 0 <= i < |ms| ==> ms[i].contents == ns[i].contents && (p.Basic? ==> ms[i] == ns[i])
  {
    ParseAllEncoded(p, ms);
    ParseAllEncoded(p, ns);
    forall i | 0 <= i < |ms|
      ensures Received(p, ms[i]) == Received(p, ns[i])
    {
      assert ReceivedAll(p, ms)[i] == ReceivedAll(p, ns)[i];
    }
  }

  lemma EncodeAllAppend(p: Protocol, ms: seq<Message>, ns: seq<Message>)
    ensures EncodeAll(p, ms + ns) == EncodeAll(p, ms) + EncodeAll(p, ns)
  {
    hide Encode, Concat;
    ConcatAppend(Encodings(p, ms), Encodings(p, ns));
    assert Encodings(p, ms + ns) == Encodings(p, ms) + Encodings(p, ns);
  }

  /** Whatever a text parser delivers fits the protocol it came from. */
  lemma FrameIsFramable(p: Protocol, s: seq<byte>)
    requires !p.Basic? && NextFrame(p, s).Whole?
    ensures Framable(p, NextFrame(p, s).message)
  {
    var t, i := Terminator(p), First(Terminator(p), s).value;
    var m := NextFrame(p, s).message;
    assert m.contents == s[..i];
    assert m.contents + s[i..] == s;
    forall j
      ensures !OccursAt(t, m.contents, j)
    {
      if OccursAt(t, m.contents, j) {
        OccursInPrefix(t, m.contents, s[i..], j);
      }
    }
    TextFramable(p, m);
  }

  lemma {:induction false} ParsedIsFramable(p: Protocol, s: seq<byte>)
    requires !p.Basic?
    ensures AllFramable(p, Parse(p, s).messages) && Parse(p, s).error.None?
    decreases |s|
  {
    if NextFrame(p, s).Whole? {
      FrameIsFramable(p, s);
      ParsedIsFramable(p, s[NextFrame(p, s).length..]);
    }
  }

  lemma BasicReencodes(s: seq<byte>, m: Message)
    requires |s| >= 4 && |s| == 4 + NetworkToHost(s) as int
    requires Decode(Basic, s[4..]) == Ok(m)
    ensures Encode(Basic, m) == s
  {
    hide NetworkToHost, HostToNetwork;
    EncodeUndoesDecode(Basic, s[4..]);
    assert Encode(Basic, m)[4..] == Body(m) == s[4..];
    OctetsRoundTrip(s);
  }

  lemma TextReencodes(p: Protocol, s: seq<byte>, m: Message)
    requires !p.Basic?
    requires |s| >= |Terminator(p)| && s[|s| - |Terminator(p)|..] == Terminator(p)
    requires Decode(p, s) == Ok(m)
    ensures Encode(p, m) == s
  {}

  lemma FrameReencodes(p: Protocol, s: seq<byte>)
    requires NextFrame(p, s).Whole?
    ensures Encode(p, NextFrame(p, s).message) == s[..NextFrame(p, s).length]
  {
    hide Encode;
    var (a, b) := Extent(p, s).value;
    var f := NextFrame(p, s);
    if p.Basic? {
      assert s[..b][4..] == s[4..b];
      BasicReencodes(s[..b], f.message);
    } else {
      assert s[..b] == s[0..b];
      assert s[..b][b - |Terminator(p)|..] == s[b - |Terminator(p)|..b];
      TextReencodes(p, s[..b], f.message);
    }
  }

  /** Parsing loses nothing and invents nothing: its messages re-encode to what was parsed. */
  lemma {:induction false} ParseReencodes(p: Protocol, s: seq<byte>)
    ensures EncodeAll(p, Parse(p, s).messages) + Parse(p, s).rest == s
    decreases |s|
  {
    hide NextFrame, Encode;
    var f := NextFrame(p, s);
    if f.Whole? {
      var head, tail := s[..f.length], s[f.length..];
      calc {
        EncodeAll(p, Parse(p, s).messages) + Parse(p, s).rest;
        EncodeAll(p, [f.message] + Parse(p, tail).messages) + Parse(p, tail).rest;
        { EncodeAllCons(p, f.message, Parse(p, tail).messages); FrameReencodes(p, s); }
        head + EncodeAll(p, Parse(p, tail).messages) + Parse(p, tail).rest;
        { assert forall a: seq<byte>, b: seq<byte>, c: seq<byte> :: (a + b) + c == a + (b + c); }
        head + (EncodeAll(p, Parse(p, tail).messages) + Parse(p, tail).rest);
        { ParseReencodes(p, tail); }
        head + tail;
        s;
      }
    }
  }

  // ---- whole streams with messages that are not framable

  lemma TextWhole(p: Protocol, s: seq<byte>, i: int)
    requires !p.Basic? && OccursAt(Terminator(p), s, i)
    ensures NextFrame(p, s).Whole?
    ensures var n := NextFrame(p, s).length; n >= |Terminator(p)| && OccursAt(Terminator(p), s, n - |Terminator(p)|)
  {}

  /** Two terminators do not overlap. */
  lemma Disjoint(p: Protocol, s: seq<byte>, i: int, j: int)
    requires !p.Basic? && OccursAt(Terminator(p), s, i) && OccursAt(Terminator(p), s, j) && i < j
    ensures i + |Terminator(p)| <= j
  {
    var k := |Terminator(p)|;
    assert s[i + k - 1] == s[i..i + k][k - 1] && s[j] == s[j..j + k][0];
  }

  /** A text that ends with its terminator is all frames. */
  lemma {:induction false} TerminatedIsParsed(p: Protocol, s: seq<byte>)
    requires !p.Basic? && OccursAt(Terminator(p), s, |s| - |Terminator(p)|)
    ensures Parse(p, s).rest == []
    decreases |s|
  {
    hide NextFrame, Terminator;
    var k := |Terminator(p)|;
    TextWhole(p, s, |s| - k);
    var n := NextFrame(p, s).length;
    if n < |s| {
      Disjoint(p, s, n - k, |s| - k);
      assert s[n..][|s| - n - k..] == s[|s| - k..];
      TerminatedIsParsed(p, s[n..]);
    } else {
      EmptyStream(p);
      assert s[n..] == [];
    }
  }

  lemma SameText(p: Protocol, m: Message, n: Message)
    requires !p.Basic? && Encode(p, m) == Encode(p, n)
    ensures m.contents == n.contents
  {
    var k := |m.contents|;
    assert Encode(p, m)[..k] == m.contents && Encode(p, n)[..k] == n.contents;
  }

  lemma OneMessage(p: Protocol, m: Message, ms: seq<Message>)
    requires !p.Basic? && AllFramable(p, ms) && EncodeAll(p, ms) == Encode(p, m)
    ensures ms != [] && (|ms| == 1 <==> Framable(p, m))
  {
    assert EncodeAll(p, []) == [];
    if |ms| == 1 {
      assert ms == [ms[0]] + [];
      EncodeAllCons(p, ms[0], []);
      assert Encode(p, ms[0]) + [] == Encode(p, ms[0]);
      SameText(p, ms[0], m);
    } else if Framable(p, m) {
      EncodeAllCons(p, m, []);
      assert [m] + [] == [m] && Encode(p, m) + [] == Encode(p, m);
      UniquelyDecodable(p, [m], ms);
    }
  }

  /**
   * What becomes of any message whatever on a line protocol, with anything behind
   * it: the pieces between its terminators, which are framable and make up its
   * encoding again, and the stream behind it is parsed as if it stood alone. It is
   * one piece exactly if it is framable.
   */
  lemma TextIsCutInPieces(p: Protocol, m: Message, x: seq<byte>)
    requires !p.Basic?
    ensures var pieces := Parse(p, Encode(p, m)).messages;
            AllFramable(p, pieces) && EncodeAll(p, pieces) == Encode(p, m)
            && pieces != [] && (|pieces| == 1 <==> Framable(p, m))
            && Parse(p, Encode(p, m) + x) == Prepend(pieces, Parse(p, x))
  {
    hide Parse, EncodeAll, Framable;
    var e := Encode(p, m);
    assert e[|m.contents|..] == Terminator(p);
    TerminatedIsParsed(p, e);
    ParsedIsFramable(p, e);
    ParseReencodes(p, e);
    var r := Parse(p, e);
    assert EncodeAll(p, r.messages) + [] == EncodeAll(p, r.messages);
    OneMessage(p, m, r.messages);
    ParseExtends(p, e, x);
    assert [] + x == x;
  }

  /** The pieces that some messages, framable or not, arrive in. */
  function Pieces(p: Protocol, ms: seq<Message>): seq<Message> {
    if ms == [] then [] else Parse(p, Encode(p, ms[0])).messages + Pieces(p, ms[1..])
  }

  /**
   * Any stream on a line protocol, whatever was written to it: it arrives as the
   * pieces of its messages, one for each exactly if all of them are framable.
   */
  lemma {:induction false} TextStreamIsPieces(p: Protocol, ms: seq<Message>, x: seq<byte>)
    requires !p.Basic?
    ensures Parse(p, EncodeAll(p, ms) + x) == Prepend(Pieces(p, ms), Parse(p, x))
    ensures |Pieces(p, ms)| >= |ms| && (|Pieces(p, ms)| == |ms| <==> AllFramable(p, ms))
  {
    hide Encode, Parse, Framable;
    if ms == [] {
      assert [] + x == x && [] + Parse(p, x).messages == Parse(p, x).messages;
    } else {
      var m, tail := ms[0], EncodeAll(p, ms[1..]);
      assert [m] + ms[1..] == ms;
      EncodeAllCons(p, m, ms[1..]);
      assert Encode(p, m) + tail + x == Encode(p, m) + (tail + x);
      TextIsCutInPieces(p, m, tail + x);
      TextStreamIsPieces(p, ms[1..], x);
      PrependTwice(Parse(p, Encode(p, m)).messages, Pieces(p, ms[1..]), Parse(p, x));
    }
  }

  // ---- what arrives of any messages

  /** What the stream of some messages, framable or not, parses to. */
  function Arriving(p: Protocol, ms: seq<Message>): seq<Message> {
    Parse(p, EncodeAll(p, ms)).messages
  }

  /** Messages that leave the stream in order: any texts, and basic messages that fit their length prefix. */
  predicate Tame(p: Protocol, ms: seq<Message>) {
    !p.Basic? || AllFramable(p, ms)
  }

  /** On a line protocol the pieces of each message arrive; framable messages arrive as they are. */
  lemma ArrivingIs(p: Protocol, ms: seq<Message>)
    ensures !p.Basic? ==> Arriving(p, ms) == Pieces(p, ms)
    ensures AllFramable(p, ms) ==> Arriving(p, ms) == ReceivedAll(p, ms)
    ensures Tame(p, ms) ==> Parse(p, EncodeAll(p, ms)).rest == [] && Parse(p, EncodeAll(p, ms)).error.None?
  {
    hide Parse, EncodeAll, Framable, Pieces;
    if !p.Basic? {
      EmptyStream(p);
      TextStreamIsPieces(p, ms, []);
      assert EncodeAll(p, ms) + [] == EncodeAll(p, ms) && Pieces(p, ms) + [] == Pieces(p, ms);
    }
    if AllFramable(p, ms) {
      ParseAllEncoded(p, ms);
    }
  }

  lemma EncodeAllGrows(p: Protocol, ms: seq<Message>, ns: seq<Message>)
    requires ms <= ns
    ensures EncodeAll(p, ms) <= EncodeAll(p, ns)
  {
    hide EncodeAll;
    EncodeAllAppend(p, ms, ns[|ms|..]);
    assert ms + ns[|ms|..] == ns;
  }

  lemma ArrivingGrows(p: Protocol, ms: seq<Message>, ns: seq<Message>)
    requires ms <= ns
    ensures Arriving(p, ms) <= Arriving(p, ns)
  {
    hide Parse, EncodeAll;
    EncodeAllGrows(p, ms, ns);
    ParseMonotone(p, EncodeAll(p, ms), EncodeAll(p, ns));
  }

  /** Whatever prefix of a stream has come in: it parses to a prefix, and that of tame messages is not malformed. */
  lemma PrefixArrives(p: Protocol, ms: seq<Message>, s: seq<byte>)
    requires s <= EncodeAll(p, ms)
    ensures Parse(p, s).messages <= Arriving(p, ms)
    ensures Tame(p, ms) ==> Parse(p, s).error.None?
  {
    hide Parse, EncodeAll, Framable;
    var all := EncodeAll(p, ms);
    ArrivingIs(p, ms);
    ParseMonotone(p, s, all);
    ParseExtends(p, s, all[|s|..]);
    assert s + all[|s|..] == all;
  }

  lemma BasicTail(m: Message, k: nat, x: seq<byte>)
    requires 5 <= k <= |Body(m)|
    ensures (Encode(Basic, m) + x)[4 + k..] == m.contents[k - 5..] + x
  {
    hide HostToNetwork;
  }

  /**
   * What becomes of a basic message too long for its length prefix, with anything
   * behind it: either the parse ends there, or the message is cut off and what was
   * cut off is parsed as if it were further messages.
   */
  lemma OversizedDerails(m: Message, x: seq<byte>)
    requires !Framable(Basic, m)
    ensures var k, e := |Body(m)| % WORD, Encode(Basic, m);
            k < |Body(m)| && Parse(Basic, e + x) ==
            if k < 5 then Parsed([], e + x, Some(TooSmall(k)))
            else Prepend([m.(contents := m.contents[..k - 5])], Parse(Basic, m.contents[k - 5..] + x))
  {
    hide Encode, NextFrame;
    var k, e := |Body(m)| % WORD, Encode(Basic, m);
    OversizedIsCut(m);
    FrameExtends(Basic, e, x);
    if k >= 5 {
      BasicTail(m, k, x);
    }
  }
}
