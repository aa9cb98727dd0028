/**
 * `treceiver`: an incremental parser over a persistent input buffer. The
 * functions below say what each handler does to the receiver's state; the class
 * at the end runs them in place. Everything between the handlers, that is what
 * `async_read_until` and `async_read` do with the stream, is an `Event`.
 */
module Receiving {
  import opened Bytes
  import opened Messages
  import opened Framing

  datatype Reason = NotStarted | ReadFailed | DecodeFailed(error: Error) | HandlerThrew

  /** What the receiver waits for. `Posted`: a `receive_message` sits on the strand. */
  datatype Pending =
    | Stopped(reason: Reason)
    | Posted
    | Until(terminator: seq<byte>)
    | Exactly(need: uint32, got: nat, body: bool)

  datatype State = State(
    protocol: Protocol,
    buffer: seq<byte>,        // input_buffer_
    total: nat,               // total_bytes_transferred_
    pending: Pending,
    delivered: seq<Message>,  // receive_handler_ calls that brought a message
    failures: nat             // receive_handler_ calls that brought an error
  )

  // ---- the code

  function Armed(s: State): State {
    s.(pending := if s.protocol.Basic? then Exactly(4, 0, false) else Until(Terminator(s.protocol)))
  }

  function Report(s: State, n: nat): State
    requires n <= |s.buffer|
  {
    s.(failures := s.failures + 1, total := s.total + n, buffer := s.buffer[n..], pending := Stopped(ReadFailed))
  }

  function HandleLength(s: State, failed: bool, n: nat): State
    requires n <= |s.buffer|
  {
    if failed then Report(s, n)
    else if n != 4 then s.(total := s.total + n, pending := Stopped(HandlerThrew)) // VALIDATE
    else s.(total := s.total + n, buffer := s.buffer[n..], pending := Exactly(NetworkToHost(s.buffer), 0, true))
  }

  function HandleMessage(s: State, failed: bool, n: nat, throws: bool): State
    requires n <= |s.buffer|
  {
    if failed then Report(s, n)
    else
      match Decode(s.protocol, s.buffer[..n])
      case Err(e) => s.(total := s.total + n, pending := Stopped(DecodeFailed(e)))
      case Ok(m) => s.(total := s.total + n, buffer := s.buffer[n..], delivered := s.delivered + [m],
                       pending := if throws then Stopped(HandlerThrew) else Posted)
  }

  // ---- the stream

  /**
   * `Arm`: the strand runs the posted `receive_message`. `Arrive`: the pending
   * read moves octets from the stream into the buffer. `Complete`: the read
   * completes and its handler runs; `throws` is the user's receive handler.
   * `Fail`: the stream breaks or ends before the read is complete. `Switch`:
   * `set_protocol`, at any time; a pending read stays as it is.
   */
  datatype Event = Arm | Arrive(bytes: seq<byte>) | Complete(throws: bool) | Fail | Switch(protocol: Protocol)

  /** The pending read has what it waits for; surplus from an earlier read counts only for `Until`. */
  predicate Ready(s: State) {
    match s.pending
    case Until(t) => First(t, s.buffer).Some?
    case Exactly(need, got, _) => got == need as nat
    case _ => false
  }

  /** The pending read still waits for the stream. */
  predicate Hungry(s: State) {
    (s.pending.Until? || s.pending.Exactly?) && !Ready(s)
  }

  predicate Enabled(s: State, e: Event) {
    match e
    case Arm => s.pending.Posted?
    case Arrive(b) => Hungry(s) && b != [] && (s.pending.Exactly? ==> s.pending.got + |b| <= s.pending.need as nat)
    case Complete(_) => Ready(s) && (s.pending.Exactly? ==> |s.buffer| >= s.pending.got)
    case Fail => Hungry(s) && (s.pending.Exactly? ==> |s.buffer| >= s.pending.got)
    case Switch(_) => true
  }

  function Next(s: State, e: Event): State
    requires Enabled(s, e)
  {
    match e
    case Arm => Armed(s)
    case Arrive(b) =>
      s.(buffer := s.buffer + b,
         pending := if s.pending.Exactly? then s.pending.(got := s.pending.got + |b|) else s.pending)
    case Complete(throws) =>
      match s.pending {
        case Until(t) => HandleMessage(s, false, First(t, s.buffer).value + |t|, throws)
        case Exactly(need, _, body) =>
          if body then HandleMessage(s, false, need as nat, throws) else HandleLength(s, false, need as nat)
        case _ => s
      }
    case Fail =>
      match s.pending {
        case Exactly(_, got, body) => if body then HandleMessage(s, true, got, false) else HandleLength(s, true, got)
        case _ => HandleMessage(s, true, 0, false)
      }
    case Switch(p) => s.(protocol := p)
  }

  predicate RunOk(s: State, es: seq<Event>)
    decreases |es|
  {
    es == [] || (Enabled(s, es[0]) && RunOk(Next(s, es[0]), es[1..]))
  }

  function Run(s: State, es: seq<Event>): State
    requires RunOk(s, es)
    decreases |es|
  {
    if es == [] then s else Run(Next(s, es[0]), es[1..])
  }

  /** Everything the stream brought during a run. */
  function Arrived(es: seq<Event>): seq<byte> {
    if es == [] then [] else (if es[0].Arrive? then es[0].bytes else []) + Arrived(es[1..])
  }

  /** The protocol does not change; what happens otherwise is the subject of `Switching`. */
  predicate Steady(es: seq<Event>) {
    forall i :: 0 <= i < |es| ==> !es[i].Switch?
  }

  // ---- the invariant

  /**
   * Octets already in the buffer when basic framing starts. `async_read` always
   * waits for new octets, so the receiver stays this far behind for good.
   */
  function Lag(start: State): nat {
    if start.protocol.Basic? then |start.buffer| else 0
  }

  function Header(s: State): seq<byte> {
    if s.pending.Exactly? && s.pending.body then HostToNetwork(s.pending.need) else []
  }

  /** `rest` is what is left of `stream` after exactly the frames of `ms`. */
  ghost predicate At(p: Protocol, stream: seq<byte>, rest: seq<byte>, ms: seq<Message>) {
    && |rest| <= |stream|
    && stream[|stream| - |rest|..] == rest
    && Parse(p, stream[..|stream| - |rest|]) == Parsed(ms, [], None)
  }

  function New(start: State, s: State): seq<Message>
    requires start.delivered <= s.delivered
  {
    s.delivered[|start.delivered|..]
  }

  predicate Shape(lag: nat, s: State) {
    match s.pending
    case Until(t) => !s.protocol.Basic? && t == Terminator(s.protocol)
    case Exactly(need, got, body) =>
      s.protocol.Basic? && |s.buffer| == lag + got && got <= need as nat && (!body ==> need == 4)
    case _ => s.protocol.Basic? ==> |s.buffer| == lag
  }

  /** The stream without the octets that the lag holds back. */
  function Visible(start: State, stream: seq<byte>): seq<byte>
    requires |stream| >= Lag(start)
  {
    stream[..|stream| - Lag(start)]
  }

  ghost predicate Cut(p: Protocol, stream: seq<byte>, c: nat, ms: seq<Message>) {
    c <= |stream| && Parse(p, stream[..c]) == Parsed(ms, [], None)
  }

  /** What a malformed frame leaves in the buffer: all of it but its length, and what came behind it. */
  predicate Kept(lag: nat, stream: seq<byte>, rest: seq<byte>, buffer: seq<byte>) {
    4 <= |rest| && lag <= |stream| && buffer == rest[4..] + stream[|stream| - lag..]
  }

  /**
   * What a read error leaves in the buffer: of a line protocol everything behind
   * the frames delivered, of basic framing only the octets it lags behind.
   */
  ghost predicate Left(start: State, stream: seq<byte>, s: State)
    requires start.delivered <= s.delivered
  {
    && |s.buffer| <= |stream| && stream[|stream| - |s.buffer|..] == s.buffer
    && if start.protocol.Basic? then |s.buffer| == Lag(start) else At(start.protocol, stream, s.buffer, New(start, s))
  }

  /** `s` is reached from `start` after `stream`: the buffer of `start` and all that came since. */
  ghost predicate Good(start: State, stream: seq<byte>, s: State) {
    && start.delivered <= s.delivered
    && s.protocol == start.protocol
    && |stream| >= Lag(start)
    && s.failures == start.failures + (if s.pending == Stopped(ReadFailed) then 1 else 0)
    && (!(s.pending.Stopped? && s.pending.reason.DecodeFailed?) ==> s.total + |s.buffer| == start.total + |stream|)
    && match s.pending
       case Stopped(NotStarted) => false
       case Stopped(ReadFailed) =>
         && (exists c :: Cut(start.protocol, Visible(start, stream), c, New(start, s)))
         && Left(start, stream, s)
       case Stopped(DecodeFailed(e)) =>
         var r := Parse(start.protocol, Visible(start, stream));
         && r.messages == New(start, s) && r.error == Some(e)
         && Kept(Lag(start), stream, r.rest, s.buffer)
         && s.total + Lag(start) == start.total + |stream|
       case _ => Shape(Lag(start), s) && At(start.protocol, stream, Header(s) + s.buffer, New(start, s))
  }

  lemma GoodStart(s: State)
    requires s.pending.Posted?
    ensures Good(s, s.buffer, s)
  {}

  // ---- each event keeps it

  lemma SplitEnd(stream: seq<byte>, frame: seq<byte>, tail: seq<byte>)
    requires |frame + tail| <= |stream| && stream[|stream| - |frame + tail|..] == frame + tail
    ensures stream[..|stream| - |tail|] == stream[..|stream| - |frame + tail|] + frame
    ensures stream[|stream| - |tail|..] == tail
  {}

  /** The parse of the stream goes on with the parse of what follows. */
  lemma AtContinues(p: Protocol, stream: seq<byte>, frame: seq<byte>, tail: seq<byte>, ms: seq<Message>)
    requires At(p, stream, frame + tail, ms)
    ensures Parse(p, stream[..|stream| - |tail|]) == Prepend(ms, Parse(p, frame))
  {
    hide Parse;
    SplitEnd(stream, frame, tail);
    ParseExtends(p, stream[..|stream| - |frame + tail|], frame);
    assert [] + frame == frame;
  }

  lemma ParseOneFrame(p: Protocol, frame: seq<byte>)
    requires NextFrame(p, frame).Whole? && NextFrame(p, frame).length == |frame|
    ensures Parse(p, frame) == Parsed([NextFrame(p, frame).message], [], None)
  {
    hide NextFrame;
    assert frame[|frame|..] == [];
    EmptyStream(p);
  }

  /** Consuming one frame, and only one frame. */
  lemma Advance(p: Protocol, stream: seq<byte>, frame: seq<byte>, tail: seq<byte>, ms: seq<Message>, m: Message)
    requires At(p, stream, frame + tail, ms)
    requires NextFrame(p, frame) == Whole(m, |frame|)
    ensures At(p, stream, tail, ms + [m])
  {
    hide NextFrame, Parse;
    AtContinues(p, stream, frame, tail, ms);
    SplitEnd(stream, frame, tail);
    ParseOneFrame(p, frame);
  }

  /** Where no further frame can be taken the parse of the stream ends. */
  lemma Halt(p: Protocol, stream: seq<byte>, seen: seq<byte>, tail: seq<byte>, ms: seq<Message>)
    requires At(p, stream, seen + tail, ms)
    requires !NextFrame(p, seen).Whole?
    ensures var f := NextFrame(p, seen);
            stream[|stream| - |tail|..] == tail
            && Parse(p, stream[..|stream| - |tail|]) == Parsed(ms, seen, if f.Bad? then Some(f.error) else None)
  {
    SplitEnd(stream, seen, tail);
    hide NextFrame;
    AtContinues(p, stream, seen, tail, ms);
    assert ms + [] == ms;
  }

  lemma AtExtends(p: Protocol, stream: seq<byte>, rest: seq<byte>, ms: seq<Message>, x: seq<byte>)
    requires At(p, stream, rest, ms)
    ensures At(p, stream + x, rest + x, ms)
  {
    hide Parse;
    assert (stream + x)[..|stream| - |rest|] == stream[..|stream| - |rest|];
  }

  /** `frame` is exactly one frame and ends with its `payload`. */
  predicate IsFrame(p: Protocol, frame: seq<byte>, payload: seq<byte>) {
    && |payload| <= |frame|
    && frame[|frame| - |payload|..] == payload
    && Extent(p, frame) == Some((|frame| - |payload| as nat, |frame| as nat))
  }

  /** It stands or falls with its payload. */
  lemma FrameDecodes(p: Protocol, frame: seq<byte>, payload: seq<byte>)
    requires IsFrame(p, frame, payload)
    ensures NextFrame(p, frame) == match Decode(p, payload)
                                   case Ok(m) => Whole(m, |frame|)
                                   case Err(e) => Bad(e)
  {
    hide Decode, Extent;
    assert frame[|frame| - |payload|..|frame|] == payload;
  }

  /** Header and body, put back together, are one frame. */
  lemma BasicFrame(header: seq<byte>, body: seq<byte>)
    requires |header| == 4 && NetworkToHost(header) as nat == |body|
    ensures IsFrame(Basic, header + body, body)
  {}

  lemma FirstInPrefix(t: seq<byte>, s: seq<byte>)
    requires First(t, s).Some?
    ensures First(t, s[..First(t, s).value + |t|]) == First(t, s)
  {
    var i := First(t, s).value;
    var head, tail := s[..i + |t|], s[i + |t|..];
    assert s == head + tail;
    forall j | 0 <= j <= i
      ensures OccursAt(t, head, j) == OccursAt(t, s, j)
    {
      OccursInPrefix(t, head, tail, j);
    }
    FirstIs(t, head, i);
  }

  lemma WholeText(p: Protocol, s: seq<byte>)
    requires !p.Basic? && First(Terminator(p), s) == Some(|s| - |Terminator(p)|)
    ensures IsFrame(p, s, s)
  {
    hide First;
    assert s[0..] == s;
  }

  lemma TextFrame(p: Protocol, buffer: seq<byte>)
    requires !p.Basic? && First(Terminator(p), buffer).Some?
    ensures var n := First(Terminator(p), buffer).value + |Terminator(p)|;
            n <= |buffer| && IsFrame(p, buffer[..n], buffer[..n])
  {
    hide First, Terminator;
    FirstInPrefix(Terminator(p), buffer);
    var n := First(Terminator(p), buffer).value + |Terminator(p)|;
    WholeText(p, buffer[..n]);
  }

  lemma NewAppend(start: State, s: State, m: Message)
    requires start.delivered <= s.delivered
    ensures start.delivered <= s.delivered + [m]
    ensures (s.delivered + [m])[|start.delivered|..] == New(start, s) + [m]
  {}

  lemma KeepsArrive(start: State, stream: seq<byte>, s: State, b: seq<byte>)
    requires Good(start, stream, s) && Enabled(s, Arrive(b))
    ensures Good(start, stream + b, Next(s, Arrive(b)))
  {
    hide Parse, At;
    AtExtends(s.protocol, stream, Header(s) + s.buffer, New(start, s), b);
    assert Header(s) + (s.buffer + b) == Header(s) + s.buffer + b;
  }

  lemma Halves(header: seq<byte>, buffer: seq<byte>, n: nat, stream: seq<byte>)
    requires |header| == 4 && n <= |buffer| && |buffer| - n <= |stream|
    requires stream[|stream| - |buffer[n..]|..] == buffer[n..]
    ensures Kept(|buffer| - n, stream, header + buffer[..n], buffer)
  {
    assert (header + buffer[..n])[4..] == buffer[..n];
    assert buffer[..n] + buffer[n..] == buffer;
  }

  lemma SplitHeld(header: seq<byte>, buffer: seq<byte>, n: nat)
    requires n <= |buffer|
    ensures header + buffer == header + buffer[..n] + buffer[n..]
  {}

  lemma KeepsDelivery(start: State, stream: seq<byte>, s: State, n: nat, throws: bool)
    requires Good(start, stream, s) && (s.pending.Until? || s.pending.Exactly?)
    requires n <= |s.buffer| && (s.protocol.Basic? ==> |s.buffer| == Lag(start) + n)
    requires IsFrame(s.protocol, Header(s) + s.buffer[..n], s.buffer[..n])
    requires Decode(s.protocol, s.buffer[..n]).Ok?
    ensures Good(start, stream, HandleMessage(s, false, n, throws))
  {
    hide Parse, At, NextFrame, Decode, HostToNetwork, IsFrame;
    var frame, tail := Header(s) + s.buffer[..n], s.buffer[n..];
    FrameDecodes(s.protocol, frame, s.buffer[..n]);
    var m := Decode(s.protocol, s.buffer[..n]).message;
    SplitHeld(Header(s), s.buffer, n);
    Advance(s.protocol, stream, frame, tail, New(start, s), m);
    NewAppend(start, s, m);
    assert [] + tail == tail;
  }

  /** A receiver that stops at a malformed frame, which is all that is left of the visible stream. */
  lemma StopsMalformed(start: State, stream: seq<byte>, s: State, t: State, frame: seq<byte>, e: Error)
    requires start.delivered <= s.delivered && s.protocol == start.protocol && s.failures == start.failures
    requires t == s.(total := t.total, pending := Stopped(DecodeFailed(e)))
    requires t.total + Lag(start) == start.total + |stream|
    requires |stream| >= Lag(start) && Kept(Lag(start), stream, frame, s.buffer)
    requires Parse(start.protocol, stream[..|stream| - Lag(start)]) == Parsed(New(start, s), frame, Some(e))
    ensures Good(start, stream, t)
  {
    hide Parse, Kept, At, Cut, Left;
  }

  lemma AtFits(p: Protocol, stream: seq<byte>, rest: seq<byte>, ms: seq<Message>)
    requires At(p, stream, rest, ms)
    ensures |rest| <= |stream|
  {}

  lemma MalformedFrame(p: Protocol, stream: seq<byte>, header: seq<byte>, buffer: seq<byte>, n: nat, ms: seq<Message>)
    requires n <= |buffer| && |header| == 4 && At(p, stream, header + buffer, ms)
    requires IsFrame(p, header + buffer[..n], buffer[..n]) && Decode(p, buffer[..n]).Err?
    ensures var lag, frame := |buffer| - n, header + buffer[..n];
            && lag <= |stream| && Kept(lag, stream, frame, buffer)
            && Parse(p, stream[..|stream| - lag]) == Parsed(ms, frame, Some(Decode(p, buffer[..n]).error))
  {
    hide Parse, At, NextFrame, Decode, IsFrame, Kept;
    AtFits(p, stream, header + buffer, ms);
    SplitHeld(header, buffer, n);
    FrameDecodes(p, header + buffer[..n], buffer[..n]);
    Halt(p, stream, header + buffer[..n], buffer[n..], ms);
    Halves(header, buffer, n, stream);
  }

  lemma HandledMalformed(s: State, n: nat, throws: bool)
    requires n <= |s.buffer| && Decode(s.protocol, s.buffer[..n]).Err?
    ensures HandleMessage(s, false, n, throws) ==
            s.(total := s.total + n, pending := Stopped(DecodeFailed(Decode(s.protocol, s.buffer[..n]).error)))
  {
    hide Decode;
  }

  lemma ReadingBody(start: State, stream: seq<byte>, s: State)
    requires Good(start, stream, s) && s.pending.Exactly? && s.pending.body
    ensures start.delivered <= s.delivered && s.protocol == start.protocol && s.failures == start.failures
    ensures At(s.protocol, stream, Header(s) + s.buffer, New(start, s)) && |Header(s)| == 4
    ensures |stream| >= Lag(start) && s.total + |s.buffer| == start.total + |stream|
  {
    hide Parse, At, HostToNetwork;
  }

  lemma KeepsMalformed(start: State, stream: seq<byte>, s: State, n: nat, throws: bool)
    requires Good(start, stream, s) && s.pending.Exactly? && s.pending.body
    requires n <= |s.buffer| && |s.buffer| == Lag(start) + n
    requires IsFrame(s.protocol, Header(s) + s.buffer[..n], s.buffer[..n])
    requires Decode(s.protocol, s.buffer[..n]).Err?
    ensures Good(start, stream, HandleMessage(s, false, n, throws))
  {
    hide Good, Parse, At, Decode, IsFrame, Kept, Header, New, HandleMessage, Lag;
    ReadingBody(start, stream, s);
    MalformedFrame(s.protocol, stream, Header(s), s.buffer, n, New(start, s));
    HandledMalformed(s, n, throws);
    var frame, e := Header(s) + s.buffer[..n], Decode(s.protocol, s.buffer[..n]).error;
    StopsMalformed(start, stream, s, HandleMessage(s, false, n, throws), frame, e);
  }

  lemma KeepsText(start: State, stream: seq<byte>, s: State, throws: bool)
    requires Good(start, stream, s) && Enabled(s, Complete(throws)) && s.pending.Until?
    ensures Good(start, stream, Next(s, Complete(throws)))
  {
    hide Parse, At, NextFrame, First, HandleMessage, IsFrame;
    TextFrame(s.protocol, s.buffer);
    var n := First(s.pending.terminator, s.buffer).value + |s.pending.terminator|;
    assert Header(s) + s.buffer[..n] == s.buffer[..n];
    KeepsDelivery(start, stream, s, n, throws);
  }

  lemma KeepsLength(start: State, stream: seq<byte>, s: State, throws: bool)
    requires Good(start, stream, s) && Enabled(s, Complete(throws)) && s.pending.Exactly? && !s.pending.body
    ensures Good(start, stream, Next(s, Complete(throws)))
  {
    hide Parse, At, NetworkToHost, HostToNetwork;
    OctetsRoundTrip(s.buffer);
    assert s.buffer[..4] + s.buffer[4..] == s.buffer == [] + s.buffer;
  }

  lemma KeepsBody(start: State, stream: seq<byte>, s: State, throws: bool)
    requires Good(start, stream, s) && Enabled(s, Complete(throws)) && s.pending.Exactly? && s.pending.body
    ensures Good(start, stream, Next(s, Complete(throws)))
  {
    hide Parse, At, NextFrame, Decode, NetworkToHost, HostToNetwork, HandleMessage, IsFrame;
    WordRoundTrip(s.pending.need);
    BasicFrame(Header(s), s.buffer[..s.pending.got]);
    if Decode(Basic, s.buffer[..s.pending.got]).Ok? {
      KeepsDelivery(start, stream, s, s.pending.got, throws);
    } else {
      KeepsMalformed(start, stream, s, s.pending.got, throws);
    }
  }

  lemma FailLeaves(start: State, stream: seq<byte>, s: State)
    requires Good(start, stream, s) && Enabled(s, Fail)
    ensures start.delivered <= Next(s, Fail).delivered && Left(start, stream, Next(s, Fail))
  {
    hide Parse, Decode, HostToNetwork;
    var t := Next(s, Fail);
    if s.pending.Until? {
      assert t.buffer == s.buffer && [] + s.buffer == s.buffer;
    } else {
      var got := s.pending.got;
      SplitHeld(Header(s), s.buffer, got);
      SplitEnd(stream, Header(s) + s.buffer[..got], s.buffer[got..]);
    }
  }

  lemma KeepsFail(start: State, stream: seq<byte>, s: State)
    requires Good(start, stream, s) && Enabled(s, Fail)
    ensures Good(start, stream, Next(s, Fail))
  {
    hide Parse, Decode;
    var c := |stream| - |Header(s) + s.buffer|;
    var t := Next(s, Fail);
    assert Visible(start, stream)[..c] == stream[..c];
    assert t.delivered == s.delivered;
    assert t.total + |t.buffer| == start.total + |stream|;
    assert t.pending == Stopped(ReadFailed);
    assert c <= |Visible(start, stream)|;
    assert Cut(s.protocol, Visible(start, stream), c, New(start, t));
    FailLeaves(start, stream, s);
  }

  lemma Keeps(start: State, stream: seq<byte>, s: State, e: Event)
    requires Good(start, stream, s) && Enabled(s, e) && !e.Switch?
    ensures Good(start, stream + Arrived([e]), Next(s, e))
  {
    hide Parse, Decode, Visible;
    assert Arrived([e]) == if e.Arrive? then e.bytes + [] else [] + [];
    assert stream + [] == stream;
    match e {
      case Arm =>
      case Arrive(b) => KeepsArrive(start, stream, s, b); assert b + [] == b;
      case Complete(throws) =>
        if s.pending.Until? { KeepsText(start, stream, s, throws); }
        else if s.pending.body { KeepsBody(start, stream, s, throws); }
        else { KeepsLength(start, stream, s, throws); }
      case Fail => KeepsFail(start, stream, s);
    }
  }

  lemma {:induction false} KeepsRun(start: State, stream: seq<byte>, s: State, es: seq<Event>)
    requires Good(start, stream, s) && RunOk(s, es) && Steady(es)
    ensures Good(start, stream + Arrived(es), Run(s, es))
    decreases |es|
  {
    hide Good, Next, Enabled;
    if es == [] {
      assert stream + [] == stream;
    } else {
      Keeps(start, stream, s, es[0]);
      KeepsRun(start, stream + Arrived([es[0]]), Next(s, es[0]), es[1..]);
      assert stream + Arrived([es[0]]) + Arrived(es[1..]) == stream + Arrived(es);
    }
  }

  // ---- the theorems

  lemma PrefixOfParse(start: State, stream: seq<byte>, s: State)
    requires Good(start, stream, s)
    ensures New(start, s) <= Parse(start.protocol, Visible(start, stream)).messages
  {
    hide Parse;
    var seen := Visible(start, stream);
    if s.pending == Stopped(ReadFailed) {
      var c: nat :| Cut(s.protocol, seen, c, New(start, s));
      ParseMonotone(s.protocol, seen[..c], seen);
    } else if !(s.pending.Stopped? && s.pending.reason.DecodeFailed?) {
      var done := stream[..|stream| - |Header(s) + s.buffer|];
      assert done <= seen;
      ParseMonotone(s.protocol, done, seen);
    }
  }

  /** At any point of any run the deliveries are a prefix of what the whole visible stream parses to. */
  lemma DeliversPrefix(start: State, es: seq<Event>)
    requires start.pending.Posted? && RunOk(start, es) && Steady(es)
    ensures var s, stream := Run(start, es), start.buffer + Arrived(es);
            start.delivered <= s.delivered && |stream| >= Lag(start)
            && New(start, s) <= Parse(start.protocol, Visible(start, stream)).messages
  {
    GoodStart(start);
    KeepsRun(start, start.buffer, start, es);
    PrefixOfParse(start, start.buffer + Arrived(es), Run(start, es));
  }

  /** What a line or telnet receiver delivers, from any stream whatever, fits that protocol again. */
  lemma DeliversFramable(start: State, es: seq<Event>)
    requires start.pending.Posted? && RunOk(start, es) && Steady(es) && !start.protocol.Basic?
    ensures start.delivered <= Run(start, es).delivered
    ensures AllFramable(start.protocol, New(start, Run(start, es)))
  {
    hide Parse, Framable;
    DeliversPrefix(start, es);
    ParsedIsFramable(start.protocol, Visible(start, start.buffer + Arrived(es)));
  }

  /** Nothing is left to do until the stream brings more, or ever again: a frame was malformed. */
  predicate Settled(s: State) {
    Hungry(s) || (s.pending.Stopped? && s.pending.reason.DecodeFailed?)
  }

  lemma HeaderIsShort(need: uint32, s: seq<byte>)
    requires 4 <= |s| < 4 + need as nat && s[..4] == HostToNetwork(need)
    ensures Extent(Basic, s).None?
  {
    WordRoundTrip(need);
    assert NetworkToHost(s) == NetworkToHost(s[..4]);
  }

  /** What a settled receiver waits for is not a whole frame yet. */
  lemma HungryIsIncomplete(lag: nat, s: State)
    requires Shape(lag, s) && (s.pending.Until? ==> lag == 0) && Hungry(s)
    ensures var rest := Header(s) + s.buffer;
            |rest| >= lag && Extent(s.protocol, rest[..|rest| - lag]).None?
  {
    hide HostToNetwork;
    var rest := Header(s) + s.buffer;
    var seen := rest[..|rest| - lag];
    if s.pending.Until? {
      assert seen == s.buffer;
    } else if s.pending.body {
      HeaderIsShort(s.pending.need, seen);
    }
  }

  lemma HungryIsExact(start: State, stream: seq<byte>, s: State)
    requires Good(start, stream, s) && Hungry(s)
    ensures |s.buffer| >= Lag(start)
    ensures var r := Parse(s.protocol, Visible(start, stream));
            r.messages == New(start, s) && r.error.None?
            && r.rest + s.buffer[|s.buffer| - Lag(start)..] == Header(s) + s.buffer
  {
    hide Parse, HostToNetwork, First, Extent;
    HungryIsIncomplete(Lag(start), s);
    var rest := Header(s) + s.buffer;
    var seen, tail := rest[..|rest| - Lag(start)], rest[|rest| - Lag(start)..];
    assert rest == seen + tail;
    Halt(s.protocol, stream, seen, tail, New(start, s));
  }

  /**
   * Once settled, the deliveries are exactly what the one-shot parser makes of
   * the whole stream, less the last `Lag` octets, and a malformed frame stops
   * the receiver exactly where it stops the parser.
   */
  lemma SettledIsParse(start: State, es: seq<Event>)
    requires start.pending.Posted? && RunOk(start, es) && Steady(es) && Settled(Run(start, es))
    ensures var s, stream := Run(start, es), start.buffer + Arrived(es);
            start.delivered <= s.delivered && |stream| >= Lag(start)
            && var r := Parse(start.protocol, Visible(start, stream));
            s.delivered == start.delivered + r.messages
            && (Hungry(s) <==> r.error.None?)
            && (r.error.Some? ==> s.pending == Stopped(DecodeFailed(r.error.value)))
  {
    hide Parse;
    var s, stream := Run(start, es), start.buffer + Arrived(es);
    GoodStart(start);
    KeepsRun(start, start.buffer, start, es);
    if Hungry(s) {
      HungryIsExact(start, stream, s);
    }
    assert s.delivered == start.delivered + New(start, s);
  }

  /**
   * What is left in the buffer when a run has stopped: of a malformed frame all
   * but its length, which is counted in full, and everything behind it; of a read
   * that failed none of the octets that it reported.
   */
  lemma WhatIsLeft(start: State, es: seq<Event>)
    requires start.pending.Posted? && RunOk(start, es) && Steady(es)
    ensures var s, stream := Run(start, es), start.buffer + Arrived(es);
            && start.delivered <= s.delivered && |stream| >= Lag(start)
            && (s.pending == Stopped(ReadFailed) ==> Left(start, stream, s))
            && (s.pending.Stopped? && s.pending.reason.DecodeFailed? ==>
                  Kept(Lag(start), stream, Parse(start.protocol, Visible(start, stream)).rest, s.buffer)
                  && s.total + Lag(start) == start.total + |stream|)
  {
    hide Parse, Left, Kept, Visible;
    GoodStart(start);
    KeepsRun(start, start.buffer, start, es);
  }

  /** Chunk independence: only the octets count, not how they were cut up or when the reads completed. */
  lemma ChunkIndependence(start: State, es: seq<Event>, fs: seq<Event>)
    requires start.pending.Posted? && RunOk(start, es) && RunOk(start, fs) && Steady(es) && Steady(fs)
    requires Arrived(es) == Arrived(fs)
    requires Settled(Run(start, es)) && Settled(Run(start, fs))
    ensures Run(start, es).delivered == Run(start, fs).delivered
    ensures Hungry(Run(start, es)) <==> Hungry(Run(start, fs))
  {
    hide Parse, Run, Settled, Hungry, Visible, Lag;
    SettledIsParse(start, es);
    SettledIsParse(start, fs);
  }

  /**
   * A switch to basic framing with `k` octets in the buffer: whenever a read
   * starts the buffer holds `k` octets again, so nothing is delivered before
   * `k` octets beyond its own frame are there.
   */
  lemma SwitchLagsForever(start: State, es: seq<Event>)
    requires start.protocol.Basic? && start.pending.Posted? && RunOk(start, es) && Steady(es)
    ensures var s, k := Run(start, es), |start.buffer|;
            (s.pending.Posted? || (s.pending.Exactly? && s.pending.got == 0)) ==> |s.buffer| == k
    ensures var s, k := Run(start, es), |start.buffer|;
            start.delivered <= s.delivered
            && |EncodeAll(Basic, New(start, s))| + k <= |start.buffer + Arrived(es)|
  {
    hide Parse, EncodeAll;
    var s, stream := Run(start, es), start.buffer + Arrived(es);
    GoodStart(start);
    KeepsRun(start, start.buffer, start, es);
    PrefixOfParse(start, stream, s);
    var r := Parse(Basic, Visible(start, stream));
    ParseReencodes(Basic, Visible(start, stream));
    var k := |New(start, s)|;
    assert r.messages == New(start, s) + r.messages[k..];
    EncodeAllAppend(Basic, New(start, s), r.messages[k..]);
  }

  /** What the observer of a run can count on, protocol changes included. */
  ghost predicate Counted(start: State, stream: seq<byte>, s: State) {
    && (s.pending.Exactly? && !s.pending.body ==> s.pending.need == 4)
    && s.failures == start.failures + (if s.pending == Stopped(ReadFailed) then 1 else 0)
    && (!(s.pending.Stopped? && s.pending.reason.DecodeFailed?) ==> s.total + |s.buffer| == start.total + |stream|)
  }

  lemma OneCounts(start: State, stream: seq<byte>, s: State, e: Event, b: seq<byte>)
    requires Counted(start, stream, s) && Enabled(s, e) && b == (if e.Arrive? then e.bytes else [])
    ensures Counted(start, stream + b, Next(s, e))
  {
    hide Decode, NetworkToHost, First;
  }

  /** A read error is reported once, and every octet that came is counted, in every run whatever. */
  lemma {:induction false} Accounting(start: State, stream: seq<byte>, s: State, es: seq<Event>)
    requires Counted(start, stream, s) && RunOk(s, es)
    ensures Counted(start, stream + Arrived(es), Run(s, es))
    decreases |es|
  {
    hide Counted, Next, Enabled;
    if es == [] {
      assert stream + [] == stream;
    } else {
      var b := if es[0].Arrive? then es[0].bytes else [];
      OneCounts(start, stream, s, es[0], b);
      Accounting(start, stream + b, Next(s, es[0]), es[1..]);
      assert Arrived(es) == b + Arrived(es[1..]);
      Associate(stream, b, Arrived(es[1..]));
    }
  }

  function Unread(s: State): nat {
    |Header(s) + s.buffer|
  }

  function Stage(s: State): nat {
    if s.pending.Posted? then 2 else if s.pending.Exactly? && !s.pending.body then 1 else 0
  }

  lemma ShortBody(body: seq<byte>)
    requires |body| < 5
    ensures Decode(Basic, body).Err?
  {}

  /** What a receiver that waits for nothing does next; it ends it or brings it forward. */
  lemma InternalStep(start: State, stream: seq<byte>, s: State) returns (e: Event)
    requires Good(start, stream, s) && !s.pending.Stopped? && !Hungry(s)
    ensures !e.Arrive? && !e.Switch? && Enabled(s, e)
    ensures var t := Next(s, e);
            (t.pending.Stopped? && t.pending.reason.DecodeFailed?)
            || (!t.pending.Stopped? && Unread(t) < Unread(s))
            || (!t.pending.Stopped? && Unread(t) == Unread(s) && Stage(t) < Stage(s))
  {
    hide Parse, At, Decode, NetworkToHost, HostToNetwork;
    e := if s.pending.Posted? then Arm else Complete(false);
    if s.pending.Exactly? && s.pending.body && s.pending.need == 0 {
      ShortBody(s.buffer[..0]);
    }
  }

  /** Without new octets a receiver whose handler does not throw settles by itself. */
  lemma {:induction false} Settles(start: State, stream: seq<byte>, s: State) returns (es: seq<Event>)
    requires Good(start, stream, s) && !s.pending.Stopped?
    ensures RunOk(s, es) && Steady(es) && Arrived(es) == [] && Settled(Run(s, es))
    decreases Unread(s), Stage(s)
  {
    hide Good, Next, Enabled, Unread, Stage;
    if Hungry(s) {
      es := [];
    } else {
      var e := InternalStep(start, stream, s);
      Keeps(start, stream, s, e);
      assert Arrived([e]) == [] + [] && stream + [] == stream;
      if Next(s, e).pending.Stopped? {
        es := [e];
      } else {
        var tail := Settles(start, stream, Next(s, e));
        es := [e] + tail;
      }
    }
  }

  // ---- the object

  class Receiver {
    var protocol: Protocol
    var inputBuffer: seq<byte>
    var totalBytesTransferred: nat
    var pending: Pending
    ghost var delivered: seq<Message>
    ghost var failures: nat

    ghost function View(): State
      reads this
    {
      State(protocol, inputBuffer, totalBytesTransferred, pending, delivered, failures)
    }

    constructor ()
      ensures View() == State(Telnet, [], 0, Stopped(NotStarted), [], 0)
    {
      protocol, inputBuffer, totalBytesTransferred := Telnet, [], 0;
      pending, delivered, failures := Stopped(NotStarted), [], 0;
    }

    method SetProtocol(p: Protocol)
      modifies this`protocol
      ensures View() == old(View()).(protocol := p)
    {
      protocol := p;
    }

    method Receive()
      modifies this`pending
      ensures View() == old(View()).(pending := Posted)
    {
      pending := Posted;
    }

    method ReceiveMessage()
      modifies this`pending
      ensures View() == Armed(old(View()))
    {
      match protocol {
        case Line => ReceiveUntil([LF]);
        case Telnet => ReceiveUntil([CR, LF]);
        case Basic => ReceiveExactly(4, false);
      }
    }

    method ReceiveUntil(terminator: seq<byte>)
      modifies this`pending
      ensures pending == Until(terminator)
    {
      pending := Until(terminator);
    }

    method ReceiveExactly(bytes: uint32, body: bool)
      modifies this`pending
      ensures pending == Exactly(bytes, 0, body)
    {
      pending := Exactly(bytes, 0, body);
    }

    /** `receive_handler_` with an error and no message. */
    method ReportFailure(bytes: nat)
      requires bytes <= |inputBuffer|
      modifies this`inputBuffer, this`pending, this`failures
      ensures failures == old(failures) + 1 && inputBuffer == old(inputBuffer)[bytes..]
      ensures pending == Stopped(ReadFailed)
    {
      failures := failures + 1;
      inputBuffer := inputBuffer[bytes..];
      pending := Stopped(ReadFailed);
    }

    method AsioReceiveHandlerReadLength(failed: bool, bytes: nat)
      requires bytes <= |inputBuffer|
      modifies this
      ensures View() == HandleLength(old(View()), failed, bytes)
    {
      totalBytesTransferred := totalBytesTransferred + bytes;
      if failed {
        ReportFailure(bytes);
        return;
      }
      if bytes != 4 {
        pending := Stopped(HandlerThrew);
        return;
      }
      var length := NetworkToHost(inputBuffer);
      inputBuffer := inputBuffer[bytes..];
      ReceiveExactly(length, true);
    }

    method AsioReceiveHandler(failed: bool, bytes: nat, throws: bool)
      requires bytes <= |inputBuffer|
      modifies this
      ensures View() == HandleMessage(old(View()), failed, bytes, throws)
    {
      totalBytesTransferred := totalBytesTransferred + bytes;
      if failed {
        ReportFailure(bytes);
        return;
      }
      match Decode(protocol, inputBuffer[..bytes]) {
        case Err(e) =>
          pending := Stopped(DecodeFailed(e));
        case Ok(message) =>
          inputBuffer := inputBuffer[bytes..];
          delivered := delivered + [message];
          if throws {
            pending := Stopped(HandlerThrew);
          } else {
            Receive();
          }
      }
    }

    /** One turn of the event loop: the object does what `Next` says, so every run above is its run. */
    method Dispatch(e: Event)
      requires Enabled(View(), e)
      modifies this
      ensures View() == Next(old(View()), e)
    {
      match e {
        case Arm =>
          ReceiveMessage();
        case Arrive(b) =>
          inputBuffer := inputBuffer + b;
          if pending.Exactly? {
            pending := pending.(got := pending.got + |b|);
          }
        case Complete(throws) =>
          if pending.Until? {
            AsioReceiveHandler(false, First(pending.terminator, inputBuffer).value + |pending.terminator|, throws);
          } else if pending.body {
            AsioReceiveHandler(false, pending.need as nat, throws);
          } else {
            AsioReceiveHandlerReadLength(false, pending.need as nat);
          }
        case Fail =>
          if pending.Until? {
            AsioReceiveHandler(true, 0, false);
          } else if pending.body {
            AsioReceiveHandler(true, pending.got, false);
          } else {
            AsioReceiveHandlerReadLength(true, pending.got);
          }
        case Switch(p) =>
          SetProtocol(p);
      }
    }
  }
}
