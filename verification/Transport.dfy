/** A sender and a receiver on one protocol, with a first-in first-out octet channel between them. */
module Transport {
  import opened Bytes
  import opened Messages
  import opened Framing
  import Sending
  import Receiving

  /** `channel`: octets written and not yet read; `pulled`: octets read so far. */
  datatype State = State(sender: Sending.State, channel: seq<byte>, pulled: seq<byte>, receiver: Receiving.State)

  datatype Event = Send(send: Sending.Event) | Receive(receive: Receiving.Event)

  /** A listening receiver: `receive` was called and nothing has come yet. */
  function Listening(p: Protocol): Receiving.State {
    Receiving.State(p, [], 0, Receiving.Posted, [], 0)
  }

  function Init(p: Protocol): State {
    State(Sending.Init(p), [], [], Listening(p))
  }

  /** Any event of either end, in any order, as long as the protocol stays. */
  predicate Enabled(p: Protocol, s: State, e: Event) {
    match e
    case Send(f) => Sending.Safe(s.sender) && Sending.Enabled(s.sender, f) && !f.Switch?
    case Receive(f) => Receiving.Enabled(s.receiver, f) && !f.Switch? && (f.Arrive? ==> f.bytes <= s.channel)
  }

  function Next(p: Protocol, s: State, e: Event): State
    requires Enabled(p, s, e)
  {
    match e
    case Send(f) =>
      s.(sender := Sending.Next(s.sender, f),
         channel := s.channel + (if f.Write? then s.sender.buffer[s.sender.written..s.sender.written + f.n] else []))
    case Receive(f) =>
      var b := if f.Arrive? then f.bytes else [];
      s.(receiver := Receiving.Next(s.receiver, f), channel := s.channel[|b|..], pulled := s.pulled + b)
  }

  predicate RunOk(p: Protocol, s: State, es: seq<Event>)
    decreases |es|
  {
    es == [] || (Enabled(p, s, es[0]) && RunOk(p, Next(p, s, es[0]), es[1..]))
  }

  function Run(p: Protocol, s: State, es: seq<Event>): State
    requires RunOk(p, s, es)
    decreases |es|
  {
    if es == [] then s else Run(p, Next(p, s, es[0]), es[1..])
  }

  // ---- the invariant

  ghost predicate GoodSender(p: Protocol, s: Sending.State) {
    && Sending.Good(s)
    && s.protocol == p
    && (forall i :: 0 <= i < |s.started| ==> s.started[i].protocol == p)
  }

  ghost predicate Good(p: Protocol, s: State) {
    && GoodSender(p, s.sender)
    && Receiving.Good(Listening(p), s.pulled, s.receiver)
    && s.sender.wire == s.pulled + s.channel
  }

  lemma KeepsSender(p: Protocol, s: State, f: Sending.Event)
    requires Good(p, s) && Enabled(p, s, Send(f))
    ensures Good(p, Next(p, s, Send(f)))
  {
    hide Receiving.Good, Sending.Good, Encode;
    Sending.Keeps(s.sender, f);
    var t := Sending.Next(s.sender, f);
    assert s.pulled + [] == s.pulled;
    if f.Write? {
      var b := s.sender.buffer[s.sender.written..s.sender.written + f.n];
      assert s.pulled + s.channel + b == s.pulled + (s.channel + b);
    } else {
      assert t.wire == s.sender.wire && s.channel + [] == s.channel;
    }
  }

  lemma KeepsReceiver(p: Protocol, s: State, f: Receiving.Event)
    requires Good(p, s) && Enabled(p, s, Receive(f))
    ensures Good(p, Next(p, s, Receive(f)))
  {
    hide Receiving.Good, Receiving.Next, Receiving.Enabled, Sending.Good;
    Receiving.Keeps(Listening(p), s.pulled, s.receiver, f);
    var b := if f.Arrive? then f.bytes else [];
    assert b + [] == b && Receiving.Arrived([f]) == b;
    assert s.channel == b + s.channel[|b|..];
    assert s.pulled + (b + s.channel[|b|..]) == s.pulled + b + s.channel[|b|..];
  }

  lemma {:induction false} KeepsRun(p: Protocol, s: State, es: seq<Event>)
    requires Good(p, s) && RunOk(p, s, es)
    ensures Good(p, Run(p, s, es))
    decreases |es|
  {
    hide Good, Next, Enabled;
    if es != [] {
      if es[0].Send? {
        KeepsSender(p, s, es[0].send);
      } else {
        KeepsReceiver(p, s, es[0].receive);
      }
      KeepsRun(p, Next(p, s, es[0]), es[1..]);
    }
  }

  lemma GoodInit(p: Protocol)
    ensures Good(p, Init(p))
  {
    hide Receiving.Good, Sending.Good;
    Sending.GoodInit(p);
    Receiving.GoodStart(Listening(p));
  }

  // ---- the theorems

  /** What was started is a prefix of what was asked for, and the wire a prefix of its encoding. */
  lemma WireIsEncoding(p: Protocol, s: Sending.State)
    requires GoodSender(p, s)
    ensures var ms := Sending.MessagesOf(s.started);
            ms <= s.asked && s.wire <= EncodeAll(p, ms)
            && (s.buffer == [] ==> s.wire == EncodeAll(p, ms))
            && (s.queue == [] && s.posted == [] ==> ms == s.asked)
  {
    hide Encode, Concat;
    var ms := Sending.MessagesOf(s.started);
    assert Sending.Octets(s.started) == Encodings(p, ms);
    assert s.wire + [] == s.wire;
    var front := s.queue[..if s.queue == [] then 0 else 1];
    assert s.asked == ms + (s.queue[|front|..] + s.posted);
    assert forall i :: 0 <= i < |ms| ==> ms[i] == s.asked[i];
  }

  lemma GoodIsSafe(p: Protocol, s: State)
    requires Good(p, s)
    ensures s.receiver.delivered <= Arriving(p, s.sender.asked)
    ensures Tame(p, s.sender.asked) ==> !(s.receiver.pending.Stopped? && s.receiver.pending.reason.DecodeFailed?)
  {
    hide Parse, EncodeAll, Framable, Sending.Good, Tame, Arriving;
    WireIsEncoding(p, s.sender);
    EncodeAllGrows(p, Sending.MessagesOf(s.sender.started), s.sender.asked);
    assert s.pulled <= s.sender.wire;
    PrefixArrives(p, s.sender.asked, s.pulled);
    assert Receiving.Visible(Listening(p), s.pulled) == s.pulled;
    assert Receiving.New(Listening(p), s.receiver) == s.receiver.delivered;
    Receiving.PrefixOfParse(Listening(p), s.pulled, s.receiver);
  }

  /**
   * End to end safety. In every interleaving of requests, strand turns, partial
   * and failed writes, chunk arrivals and completions, the receiver has been given
   * a prefix of what the messages asked for arrive as, in order: of their pieces, if
   * they are texts, and of the messages themselves, if they are framable. Unless a
   * basic message was too long nothing is malformed.
   */
  lemma EndToEndSafety(p: Protocol, es: seq<Event>)
    requires RunOk(p, Init(p), es)
    ensures var d, asked := Run(p, Init(p), es).receiver.delivered, Run(p, Init(p), es).sender.asked;
            d <= Arriving(p, asked)
            && (!p.Basic? ==> d <= Pieces(p, asked))
            && (AllFramable(p, asked) ==> d <= ReceivedAll(p, asked))
    ensures var s := Run(p, Init(p), es);
            Tame(p, s.sender.asked) ==> !(s.receiver.pending.Stopped? && s.receiver.pending.reason.DecodeFailed?)
  {
    hide Good, Tame, Framable, Arriving, Pieces;
    GoodInit(p);
    KeepsRun(p, Init(p), es);
    GoodIsSafe(p, Run(p, Init(p), es));
    ArrivingIs(p, Run(p, Init(p), es).sender.asked);
  }

  /** Nothing is under way any more on the sending side and in the channel. */
  predicate Drained(s: State) {
    s.sender.posted == [] && s.sender.queue == [] && s.sender.buffer == [] && s.channel == []
  }

  lemma DrainedIsComplete(p: Protocol, s: State)
    requires Good(p, s) && Drained(s) && Receiving.Hungry(s.receiver)
    ensures s.receiver.delivered == Arriving(p, s.sender.asked)
    ensures Tame(p, s.sender.asked) ==> s.receiver.buffer == []
  {
    hide Parse, EncodeAll, Framable, Sending.Good, HostToNetwork, First, Tame;
    WireIsEncoding(p, s.sender);
    assert s.pulled + [] == s.pulled;
    ArrivingIs(p, s.sender.asked);
    Receiving.HungryIsExact(Listening(p), s.pulled, s.receiver);
    assert Receiving.Visible(Listening(p), s.pulled) == s.pulled;
    assert Receiving.New(Listening(p), s.receiver) == s.receiver.delivered;
  }

  /** End to end completeness: once all is drained and the receiver waits, it has been given everything. */
  lemma EndToEndComplete(p: Protocol, es: seq<Event>)
    requires RunOk(p, Init(p), es)
    requires Drained(Run(p, Init(p), es)) && Receiving.Hungry(Run(p, Init(p), es).receiver)
    ensures var d, asked := Run(p, Init(p), es).receiver.delivered, Run(p, Init(p), es).sender.asked;
            d == Arriving(p, asked)
            && (!p.Basic? ==> d == Pieces(p, asked))
            && (AllFramable(p, asked) ==> d == ReceivedAll(p, asked))
    ensures var s := Run(p, Init(p), es); Tame(p, s.sender.asked) ==> s.receiver.buffer == []
  {
    hide Good, Tame, Framable, Arriving, Pieces;
    GoodInit(p);
    KeepsRun(p, Init(p), es);
    DrainedIsComplete(p, Run(p, Init(p), es));
    ArrivingIs(p, Run(p, Init(p), es).sender.asked);
  }

  // ---- nothing gets stuck

  lemma RunThen(p: Protocol, s: State, e: Event, es: seq<Event>)
    requires Enabled(p, s, e) && RunOk(p, Next(p, s, e), es)
    ensures RunOk(p, s, [e] + es) && Run(p, s, [e] + es) == Run(p, Next(p, s, e), es)
  {}

  lemma {:induction false} RunAppend(p: Protocol, s: State, es: seq<Event>, fs: seq<Event>)
    requires RunOk(p, s, es) && RunOk(p, Run(p, s, es), fs)
    ensures RunOk(p, s, es + fs) && Run(p, s, es + fs) == Run(p, Run(p, s, es), fs)
    decreases |es|
  {
    hide Enabled, Next;
    if es == [] {
      assert es + fs == fs;
    } else {
      RunAppend(p, Next(p, s, es[0]), es[1..], fs);
      assert es + fs == [es[0]] + (es[1..] + fs);
      RunThen(p, s, es[0], es[1..] + fs);
    }
  }

  /** The sender can still put everything on the wire; only the rest of a failed last write needs another message. */
  predicate Flushable(s: Sending.State) {
    !Sending.Idle(s) || s.buffer == []
  }

  /** Nobody asks for a further message; those that were asked for go on. */
  predicate NoRequests(es: seq<Event>) {
    forall i :: 0 <= i < |es| ==> !(es[i].Send? && (es[i].send.Ask? || es[i].send.Answer?))
  }

  lemma FirstPosted(s: Sending.State)
    requires s.taken != []
    ensures var t := Sending.PostTaken(s, 0); t.asked + t.taken == s.asked + s.taken && |t.taken| < |s.taken|
  {
    assert s.taken == [s.taken[0]] + s.taken[1..];
  }

  /** What a sender with work left can do next, and that it leaves less to do. */
  lemma SenderStep(p: Protocol, s: State) returns (f: Sending.Event)
    requires Good(p, s) && !Sending.Idle(s.sender)
    ensures Enabled(p, s, Send(f)) && !f.Ask? && !f.Answer?
    ensures var a, t := s.sender, Next(p, s, Send(f)); var b := t.sender;
            t.receiver == s.receiver && Flushable(b) && b.asked + b.taken == a.asked + a.taken
            && (|b.taken| < |a.taken|
                || (|b.taken| == |a.taken| && |b.posted| < |a.posted|)
                || (|b.taken| == |a.taken| && |b.posted| == |a.posted| && |b.queue| < |a.queue|)
                || (|b.taken| == |a.taken| && |b.posted| == |a.posted| && |b.queue| == |a.queue|
                    && 0 <= |b.buffer| - b.written < |a.buffer| - a.written))
  {
    hide Encode, Receiving.Good, Sending.Octets, Sending.MessagesOf, Sending.Handled, Sending.Reported;
    var a := s.sender;
    f := if a.taken != [] then Sending.PostAsked(0)
         else if a.posted != [] then Sending.Strand
         else if a.written < |a.buffer| then Sending.Write(|a.buffer| - a.written)
         else Sending.Done(false);
    if a.taken != [] {
      FirstPosted(a);
    }
  }

  lemma {:induction false} SenderFlushes(p: Protocol, s: State) returns (es: seq<Event>)
    requires Good(p, s) && Flushable(s.sender)
    ensures RunOk(p, s, es) && NoRequests(es)
    ensures var t := Run(p, s, es);
            Sending.Idle(t.sender) && t.sender.buffer == []
            && t.sender.asked == s.sender.asked + s.sender.taken && t.receiver == s.receiver && Good(p, t)
    decreases |s.sender.taken|, |s.sender.posted|, |s.sender.queue|, |s.sender.buffer| - s.sender.written
  {
    hide Good, Next, Enabled;
    if Sending.Idle(s.sender) {
      es := [];
      assert s.sender.asked + [] == s.sender.asked;
    } else {
      var f := SenderStep(p, s);
      KeepsSender(p, s, f);
      var tail := SenderFlushes(p, Next(p, s, Send(f)));
      es := [Send(f)] + tail;
      RunThen(p, s, Send(f), tail);
    }
  }

  /** Some octets the pending read can take. */
  function Take(s: State): seq<byte>
    requires s.channel != [] && Receiving.Hungry(s.receiver)
  {
    var r := s.receiver.pending;
    if r.Exactly? && r.got < r.need as nat < r.got + |s.channel| then s.channel[..r.need as nat - r.got] else s.channel
  }

  /** What a live receiver can do next, and that it brings it closer to having read everything. */
  lemma ReceiverStep(p: Protocol, s: State) returns (f: Receiving.Event)
    requires Good(p, s) && !s.receiver.pending.Stopped? && Tame(p, s.sender.asked)
    requires !(Receiving.Hungry(s.receiver) && s.channel == [])
    ensures Enabled(p, s, Receive(f)) && !Next(p, s, Receive(f)).receiver.pending.Stopped?
    ensures var t := Next(p, s, Receive(f));
            |t.channel| < |s.channel|
            || (|t.channel| == |s.channel| && Receiving.Unread(t.receiver) < Receiving.Unread(s.receiver))
            || (|t.channel| == |s.channel| && Receiving.Unread(t.receiver) == Receiving.Unread(s.receiver)
                && Receiving.Stage(t.receiver) < Receiving.Stage(s.receiver))
  {
    if Receiving.Hungry(s.receiver) {
      f := Receiving.Arrive(Take(s));
    } else {
      hide Receiving.Next, Receiving.Enabled, Receiving.Good, Sending.Good, Receiving.Unread, Receiving.Stage, Tame;
      f := Receiving.InternalStep(Listening(p), s.pulled, s.receiver);
      KeepsReceiver(p, s, f);
      GoodIsSafe(p, Next(p, s, Receive(f)));
    }
  }

  lemma {:induction false} ReceiverCatchesUp(p: Protocol, s: State) returns (es: seq<Event>)
    requires Good(p, s) && !s.receiver.pending.Stopped? && Tame(p, s.sender.asked)
    ensures RunOk(p, s, es) && NoRequests(es)
    ensures var t := Run(p, s, es);
            t.sender == s.sender && t.channel == [] && Receiving.Hungry(t.receiver) && Good(p, t)
    decreases |s.channel|, Receiving.Unread(s.receiver), Receiving.Stage(s.receiver)
  {
    hide Good, Receiving.Next, Receiving.Enabled, Receiving.Hungry, Receiving.Unread, Receiving.Stage, Tame;
    if Receiving.Hungry(s.receiver) && s.channel == [] {
      es := [];
    } else {
      var f := ReceiverStep(p, s);
      KeepsReceiver(p, s, f);
      var tail := ReceiverCatchesUp(p, Next(p, s, Receive(f)));
      es := [Receive(f)] + tail;
      RunThen(p, s, Receive(f), tail);
    }
  }

  /** Every message asked for is posted, and all that can arrive of them was delivered. */
  predicate AllDelivered(p: Protocol, s: State) {
    s.sender.taken == [] && s.receiver.delivered == Arriving(p, s.sender.asked)
  }

  ghost predicate DeliversBy(p: Protocol, s: State, fs: seq<Event>) {
    RunOk(p, s, fs) && NoRequests(fs) && AllDelivered(p, Run(p, s, fs))
  }

  lemma CatchUp(p: Protocol, s: State) returns (fs: seq<Event>)
    requires Good(p, s) && !s.receiver.pending.Stopped? && Flushable(s.sender)
    requires Tame(p, s.sender.asked + s.sender.taken)
    ensures DeliversBy(p, s, fs) && Run(p, s, fs).sender.asked == s.sender.asked + s.sender.taken
  {
    hide Good, Tame, Arriving;
    var sends := SenderFlushes(p, s);
    var receives := ReceiverCatchesUp(p, Run(p, s, sends));
    fs := sends + receives;
    RunAppend(p, s, sends, receives);
    DrainedIsComplete(p, Run(p, s, fs));
  }

  /** From every reachable state with a live receiver all messages asked for can still be delivered. */
  lemma CanDeliverAll(p: Protocol, es: seq<Event>) returns (fs: seq<Event>)
    requires RunOk(p, Init(p), es)
    requires var s := Run(p, Init(p), es);
             !s.receiver.pending.Stopped? && Flushable(s.sender) && Tame(p, s.sender.asked + s.sender.taken)
    ensures var s := Run(p, Init(p), es);
            DeliversBy(p, s, fs) && Run(p, s, fs).sender.asked == s.sender.asked + s.sender.taken
  {
    hide Good, DeliversBy, Tame;
    GoodInit(p);
    KeepsRun(p, Init(p), es);
    fs := CatchUp(p, Run(p, Init(p), es));
  }

  // ---- and the rest of a failed last write is a message that is missing

  /** What was delivered takes no more octets than came in. */
  lemma DeliveredFitsPulled(p: Protocol, s: State)
    requires Good(p, s)
    ensures |EncodeAll(p, s.receiver.delivered)| <= |s.pulled|
  {
    hide Parse, EncodeAll, Framable, Sending.Good;
    var ms, ns := s.receiver.delivered, Parse(p, s.pulled).messages;
    assert Receiving.Visible(Listening(p), s.pulled) == s.pulled;
    assert Receiving.New(Listening(p), s.receiver) == ms;
    Receiving.PrefixOfParse(Listening(p), s.pulled, s.receiver);
    ParseReencodes(p, s.pulled);
    assert ns == ms + ns[|ms|..];
    EncodeAllAppend(p, ms, ns[|ms|..]);
  }

  lemma LeftoverIsMissing(p: Protocol, s: State)
    requires Good(p, s) && !Flushable(s.sender) && Tame(p, s.sender.asked)
    ensures s.receiver.delivered != Arriving(p, s.sender.asked)
  {
    hide Encode, Framable, Receiving.Good, Parse, Tame;
    var a := s.sender;
    WireIsEncoding(p, a);
    assert Sending.Octets(a.started) == Encodings(p, Sending.MessagesOf(a.started));
    assert a.wire + a.buffer == EncodeAll(p, a.asked);
    DeliveredFitsPulled(p, s);
    ArrivingIs(p, a.asked);
    ParseReencodes(p, EncodeAll(p, a.asked));
  }

  lemma UnflushableStep(p: Protocol, s: State, e: Event)
    requires Good(p, s) && !Flushable(s.sender) && Enabled(p, s, e)
    requires !(e.Send? && (e.send.Ask? || e.send.Answer?))
    ensures Good(p, Next(p, s, e)) && Next(p, s, e).sender == s.sender
  {
    assert e.Receive?;
    KeepsReceiver(p, s, e.receive);
  }

  lemma {:induction false} StaysUnflushable(p: Protocol, s: State, fs: seq<Event>)
    requires Good(p, s) && !Flushable(s.sender) && RunOk(p, s, fs) && NoRequests(fs)
    ensures !Flushable(Run(p, s, fs).sender) && Run(p, s, fs).sender.asked == s.sender.asked
    decreases |fs|
  {
    if fs != [] {
      UnflushableStep(p, s, fs[0]);
      hide Good, Enabled, Next, Flushable;
      StaysUnflushable(p, Next(p, s, fs[0]), fs[1..]);
    }
  }

  /**
   * No deadlock, and exactly one way to be stuck: in every reachable state with a
   * live receiver, all that was asked for can be delivered without another request
   * if and only if the sender does not sit on the rest of a failed last write.
   */
  lemma DeliverableIffFlushable(p: Protocol, es: seq<Event>)
    requires RunOk(p, Init(p), es) && !Run(p, Init(p), es).receiver.pending.Stopped?
    requires var a := Run(p, Init(p), es).sender; Tame(p, a.asked + a.taken)
    ensures var s := Run(p, Init(p), es);
            (exists fs :: DeliversBy(p, s, fs)) <==> Flushable(s.sender)
  {
    hide Good, Run, RunOk, Sending.Good, Receiving.Good, Tame, Arriving;
    GoodInit(p);
    KeepsRun(p, Init(p), es);
    var s := Run(p, Init(p), es);
    if Flushable(s.sender) {
      var fs := CatchUp(p, s);
    } else {
      assert s.sender.asked + [] == s.sender.asked;
      forall fs | RunOk(p, s, fs) && NoRequests(fs)
        ensures !AllDelivered(p, Run(p, s, fs))
      {
        StaysUnflushable(p, s, fs);
        KeepsRun(p, s, fs);
        LeftoverIsMissing(p, Run(p, s, fs));
      }
    }
  }
}
