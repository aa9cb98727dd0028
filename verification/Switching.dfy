/**
 * `set_protocol` in the middle of a stream. A pending read keeps the frame boundary
 * it was started with, while its payload is decoded as the protocol says by then.
 */
module Switching {
  import opened Bytes
  import opened Messages
  import opened Framing
  import opened Receiving

  lemma {:induction false} RunAppend(s: State, es: seq<Event>, fs: seq<Event>)
    requires RunOk(s, es + fs)
    ensures RunOk(s, es) && RunOk(Run(s, es), fs) && Run(Run(s, es), fs) == Run(s, es + fs)
    decreases |es|
  {
    hide Next, Enabled;
    if es == [] {
      assert es + fs == fs;
    } else {
      assert (es + fs)[1..] == es[1..] + fs;
      RunAppend(Next(s, es[0]), es[1..], fs);
    }
  }

  lemma LoneSwitch(s: State, q: Protocol)
    requires RunOk(s, [Switch(q)])
    ensures Run(s, [Switch(q)]) == s.(protocol := q)
  {
    assert [Switch(q)][1..] == [];
  }

  /** The three parts of a run with one change of protocol. */
  lemma OneSwitch(start: State, es: seq<Event>, q: Protocol, fs: seq<Event>)
    requires RunOk(start, es + [Switch(q)] + fs)
    ensures RunOk(start, es)
    ensures var s := Run(start, es).(protocol := q); RunOk(s, fs) && Run(s, fs) == Run(start, es + [Switch(q)] + fs)
  {
    hide Run, RunOk;
    RunAppend(start, es + [Switch(q)], fs);
    RunAppend(start, es, [Switch(q)]);
    LoneSwitch(Run(start, es), q);
  }

  // ---- a change between two reads

  /** `t` has been given `before` and then the parse of `stream` less `k` octets. */
  ghost predicate ParsedBehind(q: Protocol, k: nat, stream: seq<byte>, before: seq<Message>, t: State) {
    && k <= |stream|
    && var r := Parse(q, stream[..|stream| - k]);
    && t.delivered == before + r.messages
    && (Hungry(t) <==> r.error.None?)
    && (r.error.Some? ==> t.pending == Stopped(DecodeFailed(r.error.value)))
  }

  lemma SettledBehind(s: State, fs: seq<Event>)
    requires s.pending.Posted? && RunOk(s, fs) && Steady(fs) && Settled(Run(s, fs))
    ensures ParsedBehind(s.protocol, Lag(s), s.buffer + Arrived(fs), s.delivered, Run(s, fs))
  {
    hide Parse, Run, RunOk, Hungry;
    SettledIsParse(s, fs);
  }

  /** The stream so far, in front of what the receiver holds of it, was whole frames, and they were delivered. */
  ghost predicate WasParsed(start: State, stream: seq<byte>, held: seq<byte>, s: State) {
    && |held| <= |stream|
    && stream[|stream| - |held|..] == held
    && var r := Parse(start.protocol, stream[..|stream| - |held|]);
    && r.rest == [] && r.error.None?
    && s.delivered == start.delivered + r.messages
  }

  /**
   * Changing the protocol between two frames: the stream splits at one place into
   * whole frames of the old protocol and a rest in the new one, and every
   * delivery is a frame of its part. Nothing is lost or read twice at the seam.
   */
  lemma SwitchMidStream(start: State, es: seq<Event>, q: Protocol, fs: seq<Event>)
    requires start.pending.Posted? && RunOk(start, es + [Switch(q)] + fs) && Steady(es) && Steady(fs)
    requires RunOk(start, es) && Run(start, es).pending.Posted?
    requires Settled(Run(start, es + [Switch(q)] + fs))
    ensures var stream, s, t := start.buffer + Arrived(es), Run(start, es), Run(start, es + [Switch(q)] + fs);
            WasParsed(start, stream, s.buffer, s)
            && ParsedBehind(q, if q.Basic? then |s.buffer| else 0, s.buffer + Arrived(fs), s.delivered, t)
  {
    hide Parse, Settled, Run, RunOk, ParsedBehind;
    OneSwitch(start, es, q, fs);
    GoodStart(start);
    KeepsRun(start, start.buffer, start, es);
    var s := Run(start, es);
    assert [] + s.buffer == s.buffer;
    assert s.delivered == start.delivered + New(start, s);
    SettledBehind(s.(protocol := q), fs);
  }

  // ---- a change during a read

  /** A read of protocol `p` is pending, `lag` octets behind. */
  predicate Reading(p: Protocol, lag: nat, s: State) {
    && (s.pending.Until? || s.pending.Exactly?)
    && Shape(lag, s.(protocol := p))
    && (!p.Basic? ==> lag == 0)
  }

  function Held(s: State): seq<byte> {
    Header(s) + s.buffer
  }

  /** What the stream is once the read is over: what was held then, and all that comes afterwards. */
  function Full(s: State, fs: seq<Event>): seq<byte> {
    Held(s) + Arrived(fs)
  }

  /** What arrives before the `c`-th completion, counted from zero. */
  function ArrivedBefore(fs: seq<Event>, c: nat): seq<byte> {
    if fs == [] then []
    else if fs[0].Complete? then if c == 0 then [] else ArrivedBefore(fs[1..], c - 1)
    else (if fs[0].Arrive? then fs[0].bytes else []) + ArrivedBefore(fs[1..], c)
  }

  /** How much of the stream is there when the pending message is complete, which its header comes before. */
  function Came(s: State, fs: seq<Event>): nat {
    |Held(s)| + |ArrivedBefore(fs, if s.pending.Exactly? && !s.pending.body then 1 else 0)|
  }

  /**
   * What `t`, settled, has been given of the stream `full` beyond `s`: nothing while the
   * frame of `p` is not whole; otherwise its payload decoded by `q`, if it can be, and the
   * parse by `q` of what comes behind the frame. Basic framing lags by as many octets
   * as there were behind the frame when it was complete; `came` is how many there were in all.
   */
  ghost predicate ReadAcross(p: Protocol, q: Protocol, lag: nat, full: seq<byte>, came: nat, s: State, t: State) {
    && |full| >= lag
    && var seen := full[..|full| - lag];
    match Extent(p, seen)
    case None => Hungry(t) && t.delivered == s.delivered && Held(t) == full
    case Some((a, b)) =>
      match Decode(q, seen[a..b])
      case Err(e) => t.pending == Stopped(DecodeFailed(e)) && t.delivered == s.delivered
      case Ok(m) =>
        && b <= came && (p.Basic? ==> came == b + lag)
        && ParsedBehind(q, if q.Basic? then came - b else 0, full[b..], s.delivered + [m], t)
  }

  /** Nothing happens to a receiver that has stopped. */
  lemma StoppedStays(s: State, es: seq<Event>)
    requires s.pending.Stopped? && RunOk(s, es) && Steady(es)
    ensures es == []
  {}

  lemma ArrivedOne(e: Event)
    ensures Arrived([e]) == if e.Arrive? then e.bytes else []
  {
    assert [e][1..] == [] && Arrived([]) == [];
    assert Arrived([e]) == (if e.Arrive? then e.bytes else []) + [];
  }

  lemma StillReading(p: Protocol, lag: nat, s: State, e: Event)
    requires Reading(p, lag, s) && Enabled(s, e)
    requires e.Arrive? || (e.Complete? && s.pending.Exactly? && !s.pending.body)
    ensures var t := Next(s, e);
            Reading(p, lag, t) && t.delivered == s.delivered && t.protocol == s.protocol
            && Held(t) == Held(s) + Arrived([e])
  {
    hide NetworkToHost, HostToNetwork;
    ArrivedOne(e);
    if e.Arrive? {
      assert Header(s) + (s.buffer + e.bytes) == Header(s) + s.buffer + e.bytes;
    } else {
      OctetsRoundTrip(s.buffer);
      assert s.buffer[..4] + s.buffer[4..] == s.buffer == [] + s.buffer;
    }
  }

  /** How many octets of the buffer complete the frame. */
  function Taken(s: State): (n: nat)
    requires Ready(s) && (s.pending.Exactly? ==> |s.buffer| >= s.pending.got)
    ensures n <= |s.buffer|
  {
    if s.pending.Until? then First(s.pending.terminator, s.buffer).value + |s.pending.terminator|
    else s.pending.need as nat
  }

  lemma CompletesFrame(p: Protocol, lag: nat, s: State, throws: bool)
    requires Reading(p, lag, s) && Enabled(s, Complete(throws)) && (s.pending.Until? || s.pending.body)
    ensures Ready(s) && (s.pending.Exactly? ==> |s.buffer| >= s.pending.got)
    ensures IsFrame(p, Header(s) + s.buffer[..Taken(s)], s.buffer[..Taken(s)])
    ensures var t := Next(s, Complete(throws));
            match Decode(s.protocol, s.buffer[..Taken(s)])
            case Err(e) => t.pending == Stopped(DecodeFailed(e)) && t.delivered == s.delivered
            case Ok(m) =>
              && t.delivered == s.delivered + [m] && t.buffer == s.buffer[Taken(s)..] && t.protocol == s.protocol
              && t.pending == if throws then Stopped(HandlerThrew) else Posted
    ensures |s.buffer| >= lag + Taken(s) && (p.Basic? ==> |s.buffer| == lag + Taken(s))
  {
    hide First, IsFrame, Decode, NetworkToHost, HostToNetwork;
    if s.pending.Until? {
      TextFrame(p, s.buffer);
      assert [] + s.buffer[..Taken(s)] == s.buffer[..Taken(s)];
    } else {
      WordRoundTrip(s.pending.need);
      BasicFrame(Header(s), s.buffer[..s.pending.got]);
    }
  }

  /** The frame is the first one of everything that ever comes. */
  lemma FrameOfFull(p: Protocol, lag: nat, frame: seq<byte>, payload: seq<byte>, full: seq<byte>)
    requires IsFrame(p, frame, payload) && frame <= full && |frame| + lag <= |full|
    ensures var seen, a := full[..|full| - lag], |frame| - |payload|;
            Extent(p, seen) == Some((a as nat, |frame| as nat)) && seen[a..|frame|] == payload
  {
    hide Extent;
    var seen := full[..|full| - lag];
    ExtentExtends(p, frame, seen[|frame|..]);
    assert frame + seen[|frame|..] == seen;
    assert seen[|frame| - |payload|..|frame|] == frame[|frame| - |payload|..];
  }

  lemma AcrossOk(p: Protocol, q: Protocol, lag: nat, full: seq<byte>, s: State, t: State,
                 frame: seq<byte>, payload: seq<byte>, m: Message, came: nat)
    requires IsFrame(p, frame, payload) && frame <= full && |frame| + lag <= |full|
    requires Decode(q, payload) == Ok(m)
    requires |frame| <= came && (p.Basic? ==> came == |frame| + lag)
    requires ParsedBehind(q, if q.Basic? then came - |frame| else 0, full[|frame|..], s.delivered + [m], t)
    ensures ReadAcross(p, q, lag, full, came, s, t)
  {
    hide IsFrame, Extent, Decode, ParsedBehind;
    FrameOfFull(p, lag, frame, payload, full);
  }

  lemma AcrossErr(p: Protocol, q: Protocol, lag: nat, full: seq<byte>, s: State, t: State,
                  frame: seq<byte>, payload: seq<byte>, came: nat)
    requires IsFrame(p, frame, payload) && frame <= full && |frame| + lag <= |full|
    requires Decode(q, payload).Err? && t.delivered == s.delivered
    requires t.pending == Stopped(DecodeFailed(Decode(q, payload).error))
    ensures ReadAcross(p, q, lag, full, came, s, t)
  {
    hide IsFrame, Extent, Decode;
    FrameOfFull(p, lag, frame, payload, full);
  }

  lemma Regroup(header: seq<byte>, buffer: seq<byte>, n: nat, x: seq<byte>)
    requires n <= |buffer|
    ensures header + buffer[..n] <= header + buffer + x
    ensures (header + buffer + x)[|header + buffer[..n]|..] == buffer[n..] + x
  {}

  lemma NoRun(s: State)
    requires Settled(Run(s, []))
    ensures Run(s, []) == s && s.pending != Stopped(HandlerThrew)
  {}

  lemma Crossed(p: Protocol, q: Protocol, lag: nat, s: State, throws: bool, fs: seq<Event>)
    requires Reading(p, lag, s) && s.protocol == q
    requires Enabled(s, Complete(throws)) && (s.pending.Until? || s.pending.body)
    requires var u := Next(s, Complete(throws)); RunOk(u, fs) && Steady(fs) && Settled(Run(u, fs))
    ensures ReadAcross(p, q, lag, Held(s) + Arrived(fs), |Held(s)|, s, Run(Next(s, Complete(throws)), fs))
  {
    hide IsFrame, Decode, Next, Enabled, Header, Taken, ReadAcross, Reading, ParsedBehind, Run, RunOk, Settled, Arrived;
    CompletesFrame(p, lag, s, throws);
    var n, u := Taken(s), Next(s, Complete(throws));
    var payload := s.buffer[..n];
    var frame, full := Header(s) + payload, Held(s) + Arrived(fs);
    Regroup(Header(s), s.buffer, n, Arrived(fs));
    if u.pending.Stopped? {
      StoppedStays(u, fs);
      NoRun(u);
      AcrossErr(p, q, lag, full, s, u, frame, payload, |Held(s)|);
    } else {
      SettledBehind(u, fs);
      AcrossOk(p, q, lag, full, s, Run(u, fs), frame, payload, Decode(q, payload).message, |Held(s)|);
    }
  }

  /** The run can only go on with octets for the read or with its end. */
  lemma ReadingGoesOn(p: Protocol, lag: nat, s: State, fs: seq<Event>)
    requires Reading(p, lag, s) && fs != [] && RunOk(s, fs) && Steady(fs) && Settled(Run(s, fs))
    ensures fs[0].Arrive? || fs[0].Complete?
  {
    hide Decode, First;
    assert !fs[0].Switch?;
    if fs[0].Fail? {
      StoppedStays(Next(s, fs[0]), fs[1..]);
    }
  }

  lemma AcrossSame(p: Protocol, q: Protocol, lag: nat, full: seq<byte>, came: nat, s: State, u: State, t: State)
    requires s.delivered == u.delivered && ReadAcross(p, q, lag, full, came, u, t)
    ensures ReadAcross(p, q, lag, full, came, s, t)
  {
    hide Extent, Decode, ParsedBehind;
  }

  lemma CameNow(s: State, fs: seq<Event>)
    requires fs != [] && fs[0].Complete? && (s.pending.Until? || (s.pending.Exactly? && s.pending.body))
    ensures Came(s, fs) == |Held(s)|
  {}

  lemma CameLater(s: State, fs: seq<Event>)
    requires fs != [] && Enabled(s, fs[0]) && Held(Next(s, fs[0])) == Held(s) + Arrived([fs[0]])
    requires fs[0].Arrive? || (fs[0].Complete? && s.pending.Exactly? && !s.pending.body)
    requires s.pending.Until? || s.pending.Exactly?
    requires s.pending.Exactly? && !s.pending.body ==> s.pending.need == 4
    ensures Came(s, fs) == Came(Next(s, fs[0]), fs[1..])
  {
    hide Held;
    ArrivedOne(fs[0]);
  }

  lemma AcrossNothing(p: Protocol, q: Protocol, lag: nat, s: State, came: nat)
    requires Reading(p, lag, s) && Hungry(s)
    ensures ReadAcross(p, q, lag, Held(s), came, s, s)
  {
    hide Extent, Decode, HostToNetwork;
    HungryIsIncomplete(lag, s.(protocol := p));
  }

  lemma ArrivedMore(held: seq<byte>, fs: seq<Event>)
    requires fs != []
    ensures held + Arrived([fs[0]]) + Arrived(fs[1..]) == held + Arrived(fs)
    ensures !fs[0].Arrive? ==> Arrived(fs[1..]) == Arrived(fs)
  {
    ArrivedOne(fs[0]);
    var b, tail := Arrived([fs[0]]), Arrived(fs[1..]);
    assert Arrived(fs) == b + tail;
    hide Arrived;
    Associate(held, b, tail);
  }

  /** The read that is pending when the protocol becomes `q`, and everything after it. */
  lemma {:induction false} HybridRun(p: Protocol, q: Protocol, lag: nat, s: State, fs: seq<Event>)
    requires Reading(p, lag, s) && s.protocol == q
    requires RunOk(s, fs) && Steady(fs) && Settled(Run(s, fs))
    ensures ReadAcross(p, q, lag, Full(s, fs), Came(s, fs), s, Run(s, fs))
    decreases |fs|
  {
    assert s.pending.Until? || s.pending.Exactly?;
    assert Arrived([]) == [];
    hide Next, Enabled, ReadAcross, Reading, Arrived, Held, Came;
    if fs == [] {
      AcrossNothing(p, q, lag, s, Came(s, fs));
      assert Held(s) + [] == Held(s);
    } else {
      var e, t, rest := fs[0], Next(s, fs[0]), fs[1..];
      ReadingGoesOn(p, lag, s, fs);
      ArrivedMore(Held(s), fs);
      if e.Complete? && (s.pending.Until? || s.pending.body) {
        CameNow(s, fs);
        Crossed(p, q, lag, s, e.throws, rest);
      } else {
        StillReading(p, lag, s, e);
        CameLater(s, fs);
        HybridRun(p, q, lag, t, rest);
        AcrossSame(p, q, lag, Full(s, fs), Came(s, fs), s, t, Run(t, rest));
      }
    }
  }

  /**
   * Changing the protocol while a read is pending, which is where any caller but
   * the receive handler finds the receiver: the stream splits into whole frames of
   * the old protocol, one frame with the boundary of the old protocol and the
   * decoding of the new one, and a rest in the new one.
   */
  lemma SwitchDuringRead(start: State, es: seq<Event>, q: Protocol, fs: seq<Event>)
    requires start.pending.Posted? && RunOk(start, es + [Switch(q)] + fs) && Steady(es) && Steady(fs)
    requires RunOk(start, es) && (Run(start, es).pending.Until? || Run(start, es).pending.Exactly?)
    requires Settled(Run(start, es + [Switch(q)] + fs))
    ensures var stream, s, t := start.buffer + Arrived(es), Run(start, es), Run(start, es + [Switch(q)] + fs);
            WasParsed(start, stream, Held(s), s)
            && ReadAcross(start.protocol, q, Lag(start), Full(s, fs), Came(s, fs), s, t)
  {
    hide Parse, Settled, Run, RunOk, ReadAcross;
    OneSwitch(start, es, q, fs);
    GoodStart(start);
    KeepsRun(start, start.buffer, start, es);
    var s := Run(start, es);
    assert s.delivered == start.delivered + New(start, s);
    var u := s.(protocol := q);
    HybridRun(start.protocol, q, Lag(start), u, fs);
    AcrossSame(start.protocol, q, Lag(start), Full(s, fs), Came(s, fs), s, u, Run(u, fs));
  }

  /**
   * What the mixed frame is among the line protocols: a line read before a change to
   * telnet loses its last octet, an empty line becomes a newline, and a telnet
   * line keeps its carriage return.
   */
  lemma MixedText(c: seq<byte>)
    ensures Decode(Telnet, Encode(Line, Message(Reply, 0, c))) ==
            Ok(Message(Reply, 0, if c == [] then [10] else c[..|c| - 1]))
    ensures Decode(Line, Encode(Telnet, Message(Reply, 0, c))) == Ok(Message(Reply, 0, c + [13]))
  {
    DecodesIff(Telnet, c + [LF]);
    DecodesIff(Line, c + [CR, LF]);
    if c != [] {
      assert (c + [LF])[..|c| - 1] == c[..|c| - 1];
    }
    assert (c + [CR, LF])[..|c| + 1] == c + [13];
  }

  // ---- any number of changes

  /** One delivery: the protocol in force when its read was armed, the one when it was decoded, and the octets. */
  datatype Read = Read(bound: Protocol, decoder: Protocol, frame: seq<byte>, message: Message)

  /** Its octets are one frame of the first, and the message is what the second makes of the payload. */
  ghost predicate Proper(r: Read) {
    match Extent(r.bound, r.frame)
    case None => false
    case Some((a, b)) => b == |r.frame| && Decode(r.decoder, r.frame[a..b]) == Ok(r.message)
  }

  function ReadBy(armed: Protocol, s: State, e: Event): (r: seq<Read>)
    requires Enabled(s, e)
    ensures |r| <= 1
  {
    if e.Complete? && (s.pending.Until? || s.pending.body) then
      match Decode(s.protocol, s.buffer[..Taken(s)])
      case Err(_) => []
      case Ok(m) => [Read(armed, s.protocol, Header(s) + s.buffer[..Taken(s)], m)]
    else []
  }

  function ArmedBy(armed: Protocol, s: State, e: Event): Protocol {
    if e.Arm? then s.protocol else armed
  }

  /** The deliveries of a run. */
  function Reads(armed: Protocol, s: State, es: seq<Event>): seq<Read>
    requires RunOk(s, es)
    decreases |es|
  {
    if es == [] then [] else ReadBy(armed, s, es[0]) + Reads(ArmedBy(armed, s, es[0]), Next(s, es[0]), es[1..])
  }

  function Frames(rs: seq<Read>): seq<seq<byte>> {
    seq(|rs|, i requires 0 <= i < |rs| => rs[i].frame)
  }

  function Delivered(rs: seq<Read>): seq<Message> {
    seq(|rs|, i requires 0 <= i < |rs| => rs[i].message)
  }

  predicate Live(s: State) {
    !s.pending.Stopped? || s.pending == Stopped(HandlerThrew)
  }

  ghost predicate Tied(armed: Protocol, s: State) {
    s.pending.Until? || s.pending.Exactly? ==> exists lag: nat :: Reading(armed, lag, s)
  }

  ghost predicate Explains(s: State, stream: seq<byte>, rs: seq<Read>, t: State) {
    && (forall i :: 0 <= i < |rs| ==> Proper(rs[i]))
    && t.delivered == s.delivered + Delivered(rs)
    && (Live(t) ==> Held(s) + stream == Concat(Frames(rs)) + Held(t))
  }

  lemma ExplainsNone(s: State, stream: seq<byte>, t: State)
    requires t.delivered == s.delivered && (Live(t) ==> Held(t) == Held(s) + stream)
    ensures Explains(s, stream, [], t)
  {
    hide Held;
    assert Frames([]) == [] && Delivered([]) == [];
    assert [] + Held(t) == Held(t);
  }

  lemma ExplainsOne(s: State, r: Read, t: State)
    requires Proper(r) && t.delivered == s.delivered + [r.message] && Held(s) == r.frame + Held(t)
    ensures Explains(s, [], [r], t)
  {
    hide Held, Proper;
    assert Frames([r]) == [r.frame] && Delivered([r]) == [r.message];
    assert Concat([r.frame]) == r.frame + [];
    assert Held(s) + [] == Held(s);
  }

  lemma ProperFrame(p: Protocol, q: Protocol, frame: seq<byte>, payload: seq<byte>, m: Message)
    requires IsFrame(p, frame, payload) && Decode(q, payload) == Ok(m)
    ensures Proper(Read(p, q, frame, m))
  {
    hide Extent, Decode;
    assert frame[|frame| - |payload|..|frame|] == payload;
  }

  lemma Consumed(s: State, t: State, n: nat)
    requires n <= |s.buffer| && t.buffer == s.buffer[n..] && Header(t) == []
    ensures Held(s) == Header(s) + s.buffer[..n] + Held(t)
  {
    SplitHeld(Header(s), s.buffer, n);
    Associate(Header(s) + s.buffer[..n], [], s.buffer[n..]);
  }

  lemma ReadCompletes(armed: Protocol, s: State, throws: bool)
    requires Tied(armed, s) && Enabled(s, Complete(throws)) && (s.pending.Until? || s.pending.body)
    ensures var e, t := Complete(throws), Next(s, Complete(throws));
            Tied(armed, t) && Explains(s, [], ReadBy(armed, s, e), t)
  {
    var lag: nat :| Reading(armed, lag, s);
    hide Enabled, Next, Taken, Decode, Extent, Reading, Explains, Held, Proper, IsFrame, Ready;
    CompletesFrame(armed, lag, s, throws);
    var n, t := Taken(s), Next(s, Complete(throws));
    var payload := s.buffer[..n];
    if Decode(s.protocol, payload).Ok? {
      var m := Decode(s.protocol, payload).message;
      ProperFrame(armed, s.protocol, Header(s) + payload, payload, m);
      Consumed(s, t, n);
      ExplainsOne(s, Read(armed, s.protocol, Header(s) + payload, m), t);
    } else {
      ExplainsNone(s, [], t);
    }
  }

  lemma ArmedReads(s: State)
    requires s.pending.Posted?
    ensures Tied(s.protocol, Armed(s)) && Held(Armed(s)) == Held(s) + []
  {
    assert Reading(s.protocol, if s.protocol.Basic? then |s.buffer| else 0, Armed(s));
  }

  lemma SwitchedReads(armed: Protocol, s: State, t: State)
    requires Tied(armed, s) && t == s.(protocol := t.protocol)
    ensures Tied(armed, t) && Held(t) == Held(s) + []
  {
    if s.pending.Until? || s.pending.Exactly? {
      var lag: nat :| Reading(armed, lag, s);
      assert Reading(armed, lag, t);
    }
  }

  lemma Goes(armed: Protocol, s: State, e: Event)
    requires Tied(armed, s) && Enabled(s, e)
    requires e.Arrive? || (e.Complete? && s.pending.Exactly? && !s.pending.body)
    ensures Tied(armed, Next(s, e)) && Explains(s, Arrived([e]), [], Next(s, e))
  {
    assert s.pending.Until? || s.pending.Exactly?;
    var lag: nat :| Reading(armed, lag, s);
    hide Next, Enabled, Reading, Explains, Arrived;
    StillReading(armed, lag, s, e);
    ExplainsNone(s, Arrived([e]), Next(s, e));
  }

  lemma OtherEvents(armed: Protocol, s: State, e: Event)
    requires Tied(armed, s) && Enabled(s, e) && !(e.Complete? && (s.pending.Until? || s.pending.body))
    ensures Tied(ArmedBy(armed, s, e), Next(s, e)) && Explains(s, Arrived([e]), [], Next(s, e))
  {
    ArrivedOne(e);
    var t := Next(s, e);
    match e {
      case Arm => ArmedReads(s); ExplainsNone(s, [], t);
      case Arrive(_) => Goes(armed, s, e);
      case Complete(_) => Goes(armed, s, e);
      case Fail => ExplainsNone(s, [], t);
      case Switch(_) => SwitchedReads(armed, s, t); ExplainsNone(s, [], t);
    }
  }

  lemma Rebracket(h: seq<byte>, b: seq<byte>, x: seq<byte>, f: seq<byte>, k: seq<byte>, g: seq<byte>, l: seq<byte>)
    requires h + b == f + k && k + x == g + l
    ensures h + (b + x) == f + g + l
  {
    calc {
      h + (b + x);
      h + b + x;
      f + k + x;
      f + (k + x);
      f + (g + l);
      f + g + l;
    }
  }

  lemma ExplainsTwice(s: State, b: seq<byte>, rs: seq<Read>, u: State, x: seq<byte>, ss: seq<Read>, t: State)
    requires Explains(s, b, rs, u) && Explains(u, x, ss, t) && (Live(t) ==> Live(u))
    ensures Explains(s, b + x, rs + ss, t)
  {
    hide Proper, Held, Live;
    assert Frames(rs + ss) == Frames(rs) + Frames(ss);
    assert Delivered(rs + ss) == Delivered(rs) + Delivered(ss);
    assert s.delivered + Delivered(rs) + Delivered(ss) == s.delivered + (Delivered(rs) + Delivered(ss));
    ConcatAppend(Frames(rs), Frames(ss));
    hide Frames, Delivered, Concat;
    if Live(t) {
      Rebracket(Held(s), b, x, Concat(Frames(rs)), Held(u), Concat(Frames(ss)), Held(t));
    }
  }

  lemma {:induction false} DeadStays(s: State, es: seq<Event>)
    requires !Live(s) && RunOk(s, es)
    ensures !Live(Run(s, es))
    decreases |es|
  {
    if es != [] {
      DeadStays(Next(s, es[0]), es[1..]);
    }
  }

  lemma StepExplains(armed: Protocol, s: State, e: Event)
    requires Tied(armed, s) && Enabled(s, e)
    ensures Tied(ArmedBy(armed, s, e), Next(s, e)) && Explains(s, Arrived([e]), ReadBy(armed, s, e), Next(s, e))
  {
    ArrivedOne(e);
    hide Tied, Next, Explains;
    if e.Complete? && (s.pending.Until? || s.pending.body) {
      ReadCompletes(armed, s, e.throws);
    } else {
      OtherEvents(armed, s, e);
    }
  }

  lemma {:induction false} ReadsExplain(armed: Protocol, s: State, es: seq<Event>)
    requires Tied(armed, s) && RunOk(s, es)
    ensures Explains(s, Arrived(es), Reads(armed, s, es), Run(s, es))
    decreases |es|
  {
    if es == [] {
      hide Held;
      assert Held(s) + [] == Held(s);
      ExplainsNone(s, [], s);
    } else {
      var e, u, next := es[0], Next(s, es[0]), ArmedBy(armed, s, es[0]);
      assert Arrived(es) == Arrived([e]) + Arrived(es[1..]) by {
        ArrivedOne(e);
      }
      hide Next, Enabled, Explains, Tied, ReadBy, Live, Arrived, ArmedBy;
      StepExplains(armed, s, e);
      ReadsExplain(next, u, es[1..]);
      if !Live(u) {
        DeadStays(u, es[1..]);
      }
      var rs, rest := ReadBy(armed, s, e), es[1..];
      ExplainsTwice(s, Arrived([e]), rs, u, Arrived(rest), Reads(next, u, rest), Run(u, rest));
    }
  }

  /**
   * Every run, with any number of changes of the protocol at any time: each
   * delivery is one frame as the protocol stood when its read was armed, decoded
   * as it stood when the read was complete, and these frames, one behind the other,
   * with what the receiver still holds, are the stream.
   */
  lemma SwitchesLoseNothing(start: State, es: seq<Event>)
    requires start.pending.Posted? && RunOk(start, es)
    ensures var t, rs := Run(start, es), Reads(start.protocol, start, es);
            (forall i :: 0 <= i < |rs| ==> Proper(rs[i]))
            && t.delivered == start.delivered + Delivered(rs)
            && (Live(t) ==> start.buffer + Arrived(es) == Concat(Frames(rs)) + (Header(t) + t.buffer))
  {
    hide Proper, Live, Reads, Run, RunOk, Arrived, Frames, Delivered;
    ReadsExplain(start.protocol, start, es);
    assert [] + start.buffer == start.buffer;
  }
}
