/**
 * Everything between a keyboard and one session of the server, and back to the
 * screen: the line receiver of standard input, the client, its telnet connection in
 * both directions, the sender of standard output, and the server with all its other
 * sessions. One event is one handler anywhere.
 */
module FullStack {
  import opened Bytes
  import opened Messages
  import opened Framing
  import opened Lines
  import R = Receiving
  import C = Client
  import T = Transport
  import S = Sending
  import L = Lobby
  import LobbyInvariants

  datatype State = State(
    keys: R.State,           // the receiver of standard input
    client: C.State,
    history: seq<C.Event>,   // what the client went through so far
    link: T.State,           // its sender, the channel, and the receiver of the session
    server: L.State,
    back: T.State,           // the sender of the session, the channel, and the receiver of the client
    output: S.State          // the sender of standard output
  )

  /**
   * `Key`: an event of the receiver of standard input; a complete line runs the
   * client. `Connects`: a connection attempt ends. `Wire`: the sender, the channel
   * or the receiver of the session. `Welcomed`, `Deliver`, `Breaks`, `Written`: the
   * session on the link, the i-th, hears of a connection, a message, a read error or
   * a finished write. `Elsewhere`: anything else on the server. `Back`: the sender of
   * the session, the channel back or the receiver of the client. `Shows`: the client
   * is given a message and puts it out. `Output`: the sender of standard output.
   */
  datatype Event =
    | Key(key: R.Event)
    | Connects(ok: bool)
    | Wire(wire: T.Event)
    | Welcomed(i: nat, failed: bool)
    | Deliver(i: nat)
    | Breaks(i: nat)
    | Written(i: nat, failed: bool)
    | Elsewhere(elsewhere: L.Event)
    | Back(back: T.Event)
    | Shows
    | Output(output: S.Event)

  function Init(server: L.State): State {
    State(T.Listening(Line), C.INIT, [], T.Init(Telnet), server, T.Init(Telnet), S.Init(Line))
  }

  /** No session with the serial number `n` was connected yet. */
  predicate NotConnected(n: nat, server: L.State) {
    forall x :: x in server.sessions && x.serial == n ==> x.commands == [] && x.sent == [] && x.unsent == 0
  }

  // ---- one event

  /** The contents of the message that a receiver was given on the way from `r` to `t`. */
  function Newest(r: R.State, t: R.State): Text {
    if |r.delivered| < |t.delivered| then t.delivered[|r.delivered|].contents else []
  }

  /** `send_action` from a strand, where no other thread overtakes it. */
  function Sent(s: S.State, c: Text): S.State {
    S.PostTaken(S.Asked(s, c), |s.taken|)
  }

  /** The texts that `after` has in addition are sent; it is at most one. */
  function SentNew(s: S.State, before: seq<Text>, after: seq<Text>): S.State {
    if |before| < |after| then Sent(s, after[|before|]) else s
  }

  /** The client goes through an event, and a new action is asked for on the link. */
  function Step(s: State, e: C.Event): State {
    var t := C.Next(s.client, e);
    s.(client := t, history := s.history + [e],
       link := s.link.(sender := SentNew(s.link.sender, s.client.sent, t.sent)))
  }

  function KeyEvent(s: State, e: R.Event): (r: Option<C.Event>)
    requires R.Enabled(s.keys, e)
  {
    match e
    case Complete(_) => Some(C.Typed(Newest(s.keys, R.Next(s.keys, e))))
    case Fail => Some(C.InputFails)
    case _ => None
  }

  /** The session on the link, the one with serial number `n`, is the i-th. */
  predicate OnLink(n: nat, server: L.State, i: nat) {
    i < |server.sessions| && server.sessions[i].serial == n
  }

  function SentBy(server: L.State, i: nat): seq<Text> {
    if i < |server.sessions| then server.sessions[i].sent else []
  }

  /** A handler of the i-th session runs, and what it sends is asked for on the way back. */
  function Serve(s: State, l: L.Event, i: nat): State
    requires L.Enabled(s.server, l)
  {
    var t := L.Next(s.server, l);
    s.(server := t, back := s.back.(sender := SentNew(s.back.sender, SentBy(s.server, i), SentBy(t, i))))
  }

  const DELIVERS := T.Receive(R.Complete(false))

  /** The command that the receiver of the session brings. */
  function Brought(s: State): Text
    requires T.Enabled(Telnet, s.link, DELIVERS)
  {
    Newest(s.link.receiver, T.Next(Telnet, s.link, DELIVERS).receiver)
  }

  predicate Enabled(n: nat, s: State, e: Event) {
    match e
    case Key(k) =>
      R.Enabled(s.keys, k) && !k.Switch?
      && (k.Complete? ==> (k.throws <==> C.Executed(s.client, KeyEvent(s, k).value.line).error.Some?))
    case Connects(_) => true
    case Wire(w) =>
      T.Enabled(Telnet, s.link, w)
      && (w.Send? ==> !w.send.Ask? && !w.send.Answer?)
      && (w.Receive? ==> w.receive.Arm? || w.receive.Arrive?)
    case Welcomed(i, failed) => OnLink(n, s.server, i) && L.Enabled(s.server, L.Accept(i, failed))
    case Deliver(i) =>
      OnLink(n, s.server, i) && T.Enabled(Telnet, s.link, DELIVERS) && L.Enabled(s.server, L.Command(i, Brought(s)))
    case Breaks(i) =>
      OnLink(n, s.server, i) && T.Enabled(Telnet, s.link, T.Receive(R.Fail)) && L.Enabled(s.server, L.ReadFails(i))
    case Written(i, failed) =>
      OnLink(n, s.server, i) && T.Enabled(Telnet, s.back, T.Send(S.Done(failed)))
      && L.Enabled(s.server, L.Written(i, failed))
    case Elsewhere(l) => L.Enabled(s.server, l) && (!l.Reap? ==> s.server.sessions[l.i].serial != n)
    case Back(w) =>
      T.Enabled(Telnet, s.back, w)
      && (w.Send? ==> !w.send.Ask? && !w.send.Answer? && !w.send.Done?)
      && (w.Receive? ==> s.client.connected && !w.receive.Complete?)
    case Shows => s.client.connected && T.Enabled(Telnet, s.back, DELIVERS)
    case Output(f) => S.Safe(s.output) && S.Enabled(s.output, f) && !f.Ask? && !f.Answer? && !f.Switch?
  }

  function Next(n: nat, s: State, e: Event): State
    requires Enabled(n, s, e)
  {
    match e
    case Key(k) =>
      var t := s.(keys := R.Next(s.keys, k));
      if KeyEvent(s, k).Some? then Step(t, KeyEvent(s, k).value) else t
    case Connects(ok) => Step(s, C.Connection(ok))
    case Wire(w) => s.(link := T.Next(Telnet, s.link, w))
    case Welcomed(i, failed) => Serve(s, L.Accept(i, failed), i)
    case Deliver(i) => Serve(s, L.Command(i, Brought(s)), i).(link := T.Next(Telnet, s.link, DELIVERS))
    case Breaks(i) => Serve(s, L.ReadFails(i), i).(link := T.Next(Telnet, s.link, T.Receive(R.Fail)))
    case Written(i, failed) =>
      Serve(s.(back := T.Next(Telnet, s.back, T.Send(S.Done(failed)))), L.Written(i, failed), i)
    case Elsewhere(l) => s.(server := L.Next(s.server, l))
    case Back(w) => s.(back := T.Next(Telnet, s.back, w))
    case Shows =>
      var t := T.Next(Telnet, s.back, DELIVERS);
      s.(back := t, output := Sent(s.output, Newest(s.back.receiver, t.receiver)))
    case Output(f) => s.(output := S.Next(s.output, f))
  }

  predicate RunOk(n: nat, s: State, es: seq<Event>)
    decreases |es|
  {
    es == [] || (Enabled(n, s, es[0]) && RunOk(n, Next(n, s, es[0]), es[1..]))
  }

  function Run(n: nat, s: State, es: seq<Event>): State
    requires RunOk(n, s, es)
    decreases |es|
  {
    if es == [] then s else Run(n, Next(n, s, es[0]), es[1..])
  }

  /** Everything that came in on standard input. */
  function Stdin(es: seq<Event>): seq<byte> {
    if es == [] then [] else (if es[0].Key? && es[0].key.Arrive? then es[0].key.bytes else []) + Stdin(es[1..])
  }

  // ---- the invariant

  /** The client has gone through exactly the lines that standard input brought. */
  ghost predicate GoodClient(stdin: seq<byte>, keys: R.State, client: C.State, history: seq<C.Event>) {
    && R.Good(T.Listening(Line), stdin, keys)
    && client == C.Run(C.INIT, history)
    && C.LinesOf(history) == Contents(keys.delivered)
    && (keys.pending.Stopped? <==> !client.listening)
    && (client.listening ==> C.InputFails !in history)
  }

  /** A link was asked for exactly some texts. */
  ghost predicate GoodLink(link: T.State, sent: seq<Text>) {
    && T.Good(Telnet, link)
    && link.sender.taken == []
    && Contents(link.sender.asked) == sent
  }

  /** The session has executed exactly what its link delivered. */
  ghost predicate GoodServer(n: nat, server: L.State, brought: seq<Text>) {
    && LobbyInvariants.Good(server)
    && (server.created <= n ==> brought == [])
    && forall x :: x in server.sessions && x.serial == n ==> x.commands == C.NonEmpty(brought)
  }

  /** The way back was asked for exactly what the session sent, and the session knows how much of it is not written. */
  ghost predicate GoodBack(n: nat, server: L.State, back: T.State) {
    && GoodLink(back, Contents(back.sender.asked))
    && (server.created <= n ==> back.sender.asked == [])
    && forall x :: x in server.sessions && x.serial == n ==>
         x.sent == Contents(back.sender.asked) && x.unsent == |back.sender.queue| + |back.sender.posted|
  }

  /** Standard output was asked for exactly what the client was given. */
  ghost predicate GoodOutput(output: S.State, shown: seq<Text>) {
    T.GoodSender(Line, output) && output.taken == [] && Contents(output.asked) == shown
  }

  ghost predicate GoodRest(n: nat, s: State) {
    && GoodLink(s.link, s.client.sent)
    && GoodServer(n, s.server, Contents(s.link.receiver.delivered))
    && GoodBack(n, s.server, s.back)
    && GoodOutput(s.output, Contents(s.back.receiver.delivered))
  }

  ghost predicate Good(n: nat, stdin: seq<byte>, s: State) {
    GoodClient(stdin, s.keys, s.client, s.history) && GoodRest(n, s)
  }

  lemma GoodInit(n: nat, server: L.State)
    requires LobbyInvariants.Good(server) && NotConnected(n, server)
    ensures Good(n, [], Init(server))
  {
    hide R.Good, T.Good, LobbyInvariants.Good, S.Good;
    R.GoodStart(T.Listening(Line));
    T.GoodInit(Telnet);
    S.GoodInit(Line);
  }

  // ---- sending a text

  lemma ContentsMore(ms: seq<Message>, m: Message)
    ensures Contents(ms + [m]) == Contents(ms) + [m.contents]
  {}

  lemma SentKeeps(p: Protocol, s: S.State, c: Text)
    requires T.GoodSender(p, s) && s.taken == []
    ensures var t := Sent(s, c);
            T.GoodSender(p, t) && t.taken == [] && Contents(t.asked) == Contents(s.asked) + [c]
            && t.wire == s.wire && t.queue == s.queue && |t.posted| == |s.posted| + 1
  {
    assert S.Safe(s);
    hide S.Good;
    S.Keeps(s, S.Ask(c));
    var asked := S.Next(s, S.Ask(c));
    S.Keeps(asked, S.PostAsked(0));
    ContentsMore(s.asked, asked.taken[0]);
  }

  lemma LinkAsked(link: T.State, sent: seq<Text>, more: seq<Text>)
    requires GoodLink(link, sent) && sent <= more && |more| <= |sent| + 1
    ensures GoodLink(link.(sender := SentNew(link.sender, sent, more)), more)
    ensures var s, t := link.sender, SentNew(link.sender, sent, more);
            t.queue == s.queue && |t.posted| - |s.posted| == |more| - |sent|
  {
    hide R.Good, S.Good, Sent;
    if |sent| < |more| {
      SentKeeps(Telnet, link.sender, more[|sent|]);
      assert more == sent + [more[|sent|]];
    } else {
      assert more == sent;
    }
  }

  lemma LinkKeeps(link: T.State, sent: seq<Text>, w: T.Event)
    requires GoodLink(link, sent) && T.Enabled(Telnet, link, w) && (w.Send? ==> !w.send.Ask? && !w.send.Answer?)
    ensures GoodLink(T.Next(Telnet, link, w), sent)
  {
    hide T.Good;
    if w.Send? {
      T.KeepsSender(Telnet, link, w.send);
    } else {
      T.KeepsReceiver(Telnet, link, w.receive);
    }
  }

  // ---- the keyboard and the client

  lemma TextCompletes(s: R.State, throws: bool)
    requires s.pending.Until? && !s.protocol.Basic? && R.Enabled(s, R.Complete(throws))
    ensures var t := R.Next(s, R.Complete(throws));
            |t.delivered| == |s.delivered| + 1 && t.delivered[..|s.delivered|] == s.delivered
            && t.pending == if throws then R.Stopped(R.HandlerThrew) else R.Posted
  {
    hide First;
  }

  lemma ContentsGrow(a: seq<Message>, b: seq<Message>)
    requires |b| == |a| + 1 && b[..|a|] == a
    ensures Contents(b) == Contents(a) + [b[|a|].contents]
  {
    assert forall i :: 0 <= i < |a| ==> b[i] == a[i];
  }

  /** A line or telnet receiver whose read completes is given one message. */
  lemma TextDelivered(start: R.State, stdin: seq<byte>, s: R.State, throws: bool)
    requires R.Good(start, stdin, s) && !start.protocol.Basic? && R.Enabled(s, R.Complete(throws))
    ensures var t := R.Next(s, R.Complete(throws));
            Contents(t.delivered) == Contents(s.delivered) + [Newest(s, t)]
            && s.pending.Until? && t.pending == if throws then R.Stopped(R.HandlerThrew) else R.Posted
  {
    assert s.pending.Until? && !s.protocol.Basic?;
    hide R.Good, R.Next, R.Enabled;
    TextCompletes(s, throws);
    ContentsGrow(s.delivered, R.Next(s, R.Complete(throws)).delivered);
  }

  lemma OneMore(es: seq<C.Event>, e: C.Event)
    ensures C.Run(C.INIT, es + [e]) == C.Next(C.Run(C.INIT, es), e)
    ensures C.LinesOf(es + [e]) == if C.InputFails in es || !e.Typed? then C.LinesOf(es) else C.LinesOf(es) + [e.line]
  {
    hide C.Next;
    C.RunAppend(C.INIT, es, [e]);
    assert [e][1..] == [] && C.Run(C.Run(C.INIT, es), [e]) == C.Next(C.Run(C.INIT, es), e);
    C.LinesAppend(es, [e]);
    assert C.LinesOf([e]) == if e.Typed? then [e.line] + [] else [];
    assert C.LinesOf(es) + [] == C.LinesOf(es);
  }

  lemma TypedListens(s: C.State, line: Text)
    requires s.listening
    ensures C.Next(s, C.Typed(line)).listening <==> C.Executed(s, line).error.None?
  {
    hide C.InPlace;
    C.ThrowsIffOutOfPlace(s, line);
  }

  lemma InputEnds(r: R.State, c: C.State)
    requires R.Enabled(r, R.Fail)
    ensures R.Next(r, R.Fail).pending.Stopped? && R.Next(r, R.Fail).delivered == r.delivered
    ensures !C.Next(c, C.InputFails).listening && !r.pending.Stopped?
  {}

  lemma QuietKey(r: R.State, k: R.Event)
    requires R.Enabled(r, k) && (k.Arm? || k.Arrive?)
    ensures R.Next(r, k).delivered == r.delivered && !R.Next(r, k).pending.Stopped? && !r.pending.Stopped?
  {}

  lemma KeysKeep(n: nat, stdin: seq<byte>, s: State, k: R.Event)
    requires GoodClient(stdin, s.keys, s.client, s.history) && Enabled(n, s, Key(k))
    ensures var t := Next(n, s, Key(k)); GoodClient(stdin + R.Arrived([k]), t.keys, t.client, t.history)
  {
    hide R.Good, R.Next, R.Enabled, C.Next, C.Run, C.LinesOf, C.Executed, SentNew;
    R.Keeps(T.Listening(Line), stdin, s.keys, k);
    match k {
      case Complete(throws) =>
        TextDelivered(T.Listening(Line), stdin, s.keys, throws);
        var line := Newest(s.keys, R.Next(s.keys, k));
        OneMore(s.history, C.Typed(line));
        TypedListens(s.client, line);
      case Fail =>
        OneMore(s.history, C.InputFails);
        InputEnds(s.keys, s.client);
      case _ =>
        QuietKey(s.keys, k);
    }
  }

  /** An event makes the client send at most one action. */
  lemma OneAction(s: C.State, e: C.Event)
    ensures var t := C.Next(s, e); s.sent <= t.sent && |t.sent| <= |s.sent| + 1
  {
    hide Ascii;
  }

  lemma StepKeeps(s: State, e: C.Event)
    requires GoodLink(s.link, s.client.sent)
    ensures var t := Step(s, e); GoodLink(t.link, t.client.sent) && t.link.receiver == s.link.receiver
  {
    hide C.Next, GoodLink, SentNew;
    OneAction(s.client, e);
    LinkAsked(s.link, s.client.sent, C.Next(s.client, e).sent);
  }

  // ---- the server

  lemma AcceptEffect(s: L.State, e: L.Event)
    requires L.Enabled(s, e) && e.Accept? && LobbyInvariants.OnlyBackWaits(s.sessions)
    ensures L.Next(s, e).created >= s.created && e.i < |L.Next(s, e).sessions|
    ensures var x, y := s.sessions[e.i], L.Next(s, e).sessions[e.i];
            y.serial == x.serial && x.sent <= y.sent && |y.sent| <= |x.sent| + 1
            && y.unsent == x.unsent + |y.sent| - |x.sent| && y.commands == x.commands
  {
    assert e.i == |s.sessions| - 1;
  }

  /** What a handler of the i-th session does to that session. */
  lemma HandlerEffect(s: L.State, e: L.Event)
    requires LobbyInvariants.Good(s) && L.Enabled(s, e) && !e.Reap?
    ensures L.Next(s, e).created >= s.created && e.i < |L.Next(s, e).sessions|
    ensures var x, y := s.sessions[e.i], L.Next(s, e).sessions[e.i];
            y.serial == x.serial && x.sent <= y.sent && |y.sent| <= |x.sent| + 1
            && y.unsent + (if e.Written? then 1 else 0) == x.unsent + |y.sent| - |x.sent|
            && y.commands == x.commands + (if e.Command? && e.text != [] then [e.text] else [])
  {
    match e {
      case Accept(i, _) => AcceptEffect(s, e);
      case Command(i, text) =>
        hide L.Next, LobbyInvariants.Good, LobbyInvariants.EffectOf, LobbyInvariants.ReplyOf;
        LobbyInvariants.CommandEffect(s, i, text);
      case _ => hide LobbyInvariants.Good;
    }
  }

  /** And to all others: nothing, but that a new one may come. */
  lemma OthersUntouched(s: L.State, e: L.Event, j: nat)
    requires LobbyInvariants.Good(s) && L.Enabled(s, e) && !e.Reap? && j != e.i && j < |L.Next(s, e).sessions|
    ensures var y := L.Next(s, e).sessions[j];
            if j < |s.sessions| then y == s.sessions[j] else y == L.NewSession(s.created).(accepting := true)
  {
    match e {
      case Accept(i, _) => assert i == |s.sessions| - 1; hide LobbyInvariants.Good;
      case Command(i, text) =>
        hide L.Next, LobbyInvariants.Good, LobbyInvariants.EffectOf;
        LobbyInvariants.CommandEffect(s, i, text);
      case _ => hide LobbyInvariants.Good;
    }
  }

  /** The session on the link is still the i-th. */
  lemma StillOnLink(n: nat, s: L.State, e: L.Event, y: L.Session)
    requires LobbyInvariants.Good(s) && L.Enabled(s, e) && !e.Reap? && OnLink(n, s, e.i)
    requires y in L.Next(s, e).sessions && y.serial == n
    ensures e.i < |L.Next(s, e).sessions| && y == L.Next(s, e).sessions[e.i] && n < s.created
  {
    assert s.sessions[e.i].serial < s.created;
    assert forall j :: 0 <= j < |s.sessions| && j != e.i ==> s.sessions[j].serial != n;
    hide LobbyInvariants.Good, L.Next, L.Enabled;
    var j :| 0 <= j < |L.Next(s, e).sessions| && L.Next(s, e).sessions[j] == y;
    if j != e.i {
      OthersUntouched(s, e, j);
    }
  }

  /** Whatever happens elsewhere: the session on the link is as it was, or new. */
  lemma ElsewhereKeeps(n: nat, s: L.State, e: L.Event, y: L.Session)
    requires LobbyInvariants.Good(s) && L.Enabled(s, e) && (!e.Reap? ==> s.sessions[e.i].serial != n)
    requires y in L.Next(s, e).sessions && y.serial == n
    ensures y in s.sessions || (n == s.created && y == L.NewSession(n).(accepting := true))
  {
    hide LobbyInvariants.Good;
    if e.Reap? {
      LobbyInvariants.SurvivorsMembers(s.sessions);
    } else {
      hide L.Next, L.Enabled;
      var j :| 0 <= j < |L.Next(s, e).sessions| && L.Next(s, e).sessions[j] == y;
      HandlerEffect(s, e);
      if j != e.i {
        OthersUntouched(s, e, j);
      }
    }
  }

  lemma NothingAsked(s: S.State)
    requires S.Good(s)
    ensures s.asked == [] ==> s.queue == [] && s.posted == []
  {}

  lemma ElsewhereServer(n: nat, s: L.State, e: L.Event, brought: seq<Text>, back: T.State)
    requires GoodServer(n, s, brought) && GoodBack(n, s, back)
    requires L.Enabled(s, e) && (!e.Reap? ==> s.sessions[e.i].serial != n)
    ensures GoodServer(n, L.Next(s, e), brought) && GoodBack(n, L.Next(s, e), back)
  {
    LobbyInvariants.Keeps(s, e);
    if !e.Reap? {
      HandlerEffect(s, e);
    }
    assert L.Next(s, e).created >= s.created && C.NonEmpty([]) == [];
    hide LobbyInvariants.Good, L.Next, L.Enabled, C.NonEmpty;
    NothingAsked(back.sender);
    hide GoodLink;
    forall y | y in L.Next(s, e).sessions && y.serial == n
      ensures y.commands == C.NonEmpty(brought) && y.sent == Contents(back.sender.asked)
      ensures y.unsent == |back.sender.queue| + |back.sender.posted|
    {
      ElsewhereKeeps(n, s, e, y);
    }
  }

  lemma SerialsBelow(s: L.State, i: nat)
    requires LobbyInvariants.Good(s) && i < |s.sessions|
    ensures s.sessions[i].serial < s.created
  {}

  lemma CommandsMore(brought: seq<Text>, e: L.Event)
    ensures C.NonEmpty(brought + (if e.Command? then [e.text] else [])) ==
            C.NonEmpty(brought) + (if e.Command? && e.text != [] then [e.text] else [])
  {
    if e.Command? {
      C.NonEmptyAppend(brought, [e.text]);
      assert C.NonEmpty([e.text]) == if e.text == [] then [] else [e.text];
    } else {
      assert brought + [] == brought && C.NonEmpty(brought) + [] == C.NonEmpty(brought);
    }
  }

  /** A handler of the session on the link: what it executes. */
  lemma ServeServer(n: nat, s: L.State, e: L.Event, brought: seq<Text>)
    requires GoodServer(n, s, brought) && L.Enabled(s, e) && !e.Reap? && OnLink(n, s, e.i)
    ensures GoodServer(n, L.Next(s, e), brought + (if e.Command? then [e.text] else []))
  {
    LobbyInvariants.Keeps(s, e);
    HandlerEffect(s, e);
    CommandsMore(brought, e);
    SerialsBelow(s, e.i);
    hide LobbyInvariants.Good, L.Next, L.Enabled, C.NonEmpty;
    assert s.sessions[e.i] in s.sessions;
    forall y | y in L.Next(s, e).sessions && y.serial == n
      ensures y == L.Next(s, e).sessions[e.i]
    {
      StillOnLink(n, s, e, y);
    }
  }

  lemma BackAsked(back: T.State, more: seq<Text>)
    requires var sent := Contents(back.sender.asked); GoodLink(back, sent) && sent <= more && |more| <= |sent| + 1
    ensures var s := back.sender; var t := SentNew(s, Contents(s.asked), more);
            GoodLink(back.(sender := t), Contents(t.asked)) && Contents(t.asked) == more
            && |t.queue| + |t.posted| == |s.queue| + |s.posted| + |more| - |s.asked|
  {
    hide T.Good, SentNew;
    LinkAsked(back, Contents(back.sender.asked), more);
  }

  lemma BackServed(n: nat, t: L.State, y: L.Session, back: T.State)
    requires n < t.created && forall z :: z in t.sessions && z.serial == n ==> z == y
    requires var sent := Contents(back.sender.asked);
             GoodLink(back, sent) && sent <= y.sent && |y.sent| <= |sent| + 1
             && y.unsent == |back.sender.queue| + |back.sender.posted| + |y.sent| - |sent|
    ensures GoodBack(n, t, back.(sender := SentNew(back.sender, Contents(back.sender.asked), y.sent)))
  {
    hide GoodLink, SentNew, Contents;
    BackAsked(back, y.sent);
  }

  /** And what it sends; a finished write is one less that is not written. */
  lemma ServeBack(n: nat, s: L.State, e: L.Event, back: T.State)
    requires LobbyInvariants.Good(s) && GoodLink(back, Contents(back.sender.asked))
    requires L.Enabled(s, e) && !e.Reap? && OnLink(n, s, e.i)
    requires var x := s.sessions[e.i];
             x.sent == Contents(back.sender.asked)
             && x.unsent == |back.sender.queue| + |back.sender.posted| + (if e.Written? then 1 else 0)
    ensures var t := L.Next(s, e);
            GoodBack(n, t, back.(sender := SentNew(back.sender, SentBy(s, e.i), SentBy(t, e.i))))
  {
    HandlerEffect(s, e);
    SerialsBelow(s, e.i);
    var t := L.Next(s, e);
    var y := t.sessions[e.i];
    forall z | z in t.sessions && z.serial == n
      ensures z == y
    {
      StillOnLink(n, s, e, z);
    }
    hide LobbyInvariants.Good, L.Next, L.Enabled, GoodLink, SentNew, GoodBack;
    BackServed(n, t, y, back);
  }

  // ---- every event keeps all of it

  lemma OnlyClient(s: State, e: C.Event)
    ensures var t := Step(s, e); t.server == s.server && t.back == s.back && t.output == s.output
  {}

  lemma KeyRest(n: nat, s: State, e: Event)
    requires GoodRest(n, s) && Enabled(n, s, e) && (e.Key? || e.Connects?)
    ensures GoodRest(n, Next(n, s, e))
  {
    hide R.Next, R.Enabled, GoodLink, GoodServer, GoodBack, GoodOutput, Step;
    if e.Connects? {
      StepKeeps(s, C.Connection(e.ok));
      OnlyClient(s, C.Connection(e.ok));
    } else if KeyEvent(s, e.key).Some? {
      var t := s.(keys := R.Next(s.keys, e.key));
      StepKeeps(t, KeyEvent(s, e.key).value);
      OnlyClient(t, KeyEvent(s, e.key).value);
    }
  }

  lemma WireRest(n: nat, s: State, w: T.Event)
    requires GoodRest(n, s) && Enabled(n, s, Wire(w))
    ensures GoodRest(n, Next(n, s, Wire(w)))
  {
    hide GoodServer, GoodBack, GoodOutput;
    LinkKeeps(s.link, s.client.sent, w);
    hide GoodLink;
    if w.Receive? {
      QuietKey(s.link.receiver, w.receive);
    }
  }

  /** A handler of the session on the link, after its link or the way back took a step of its own. */
  lemma ServeRest(n: nat, s: State, e: L.Event, link: T.State)
    requires GoodServer(n, s.server, Contents(s.link.receiver.delivered)) && GoodLink(link, s.client.sent)
    requires GoodLink(s.back, Contents(s.back.sender.asked))
    requires GoodOutput(s.output, Contents(s.back.receiver.delivered))
    requires L.Enabled(s.server, e) && !e.Reap? && OnLink(n, s.server, e.i)
    requires var x := s.server.sessions[e.i];
             x.sent == Contents(s.back.sender.asked)
             && x.unsent == |s.back.sender.queue| + |s.back.sender.posted| + (if e.Written? then 1 else 0)
    requires Contents(link.receiver.delivered) ==
             Contents(s.link.receiver.delivered) + (if e.Command? then [e.text] else [])
    ensures GoodRest(n, Serve(s, e, e.i).(link := link))
  {
    ServeServer(n, s.server, e, Contents(s.link.receiver.delivered));
    ServeBack(n, s.server, e, s.back);
    hide L.Next, L.Enabled, GoodServer, GoodLink, GoodOutput, GoodBack, SentNew;
  }

  lemma InBack(n: nat, s: State, i: nat)
    requires GoodBack(n, s.server, s.back) && OnLink(n, s.server, i)
    ensures var x := s.server.sessions[i];
            x.sent == Contents(s.back.sender.asked) && x.unsent == |s.back.sender.queue| + |s.back.sender.posted|
  {
    assert s.server.sessions[i] in s.server.sessions;
  }

  lemma SameLink(s: State, e: L.Event)
    requires L.Enabled(s.server, e) && !e.Reap?
    ensures Serve(s, e, e.i).(link := s.link) == Serve(s, e, e.i)
  {}

  lemma WelcomedRest(n: nat, s: State, i: nat, failed: bool)
    requires GoodRest(n, s) && Enabled(n, s, Welcomed(i, failed))
    ensures GoodRest(n, Next(n, s, Welcomed(i, failed)))
  {
    hide L.Next, L.Enabled, GoodServer, GoodLink, GoodOutput, Serve;
    InBack(n, s, i);
    hide GoodBack;
    var brought := Contents(s.link.receiver.delivered);
    assert brought + [] == brought;
    ServeRest(n, s, L.Accept(i, failed), s.link);
    SameLink(s, L.Accept(i, failed));
  }

  /** A read completes at the end of a link. */
  lemma Delivery(link: T.State, sent: seq<Text>)
    requires GoodLink(link, sent) && T.Enabled(Telnet, link, DELIVERS)
    ensures var t := T.Next(Telnet, link, DELIVERS);
            GoodLink(t, sent) && t.sender == link.sender
            && Contents(t.receiver.delivered) == Contents(link.receiver.delivered) + [Newest(link.receiver, t.receiver)]
  {
    LinkKeeps(link, sent, DELIVERS);
    hide R.Good, R.Next, R.Enabled, S.Good;
    TextDelivered(T.Listening(Telnet), link.pulled, link.receiver, false);
  }

  lemma DeliverRest(n: nat, s: State, i: nat)
    requires GoodRest(n, s) && Enabled(n, s, Deliver(i))
    ensures GoodRest(n, Next(n, s, Deliver(i)))
  {
    hide L.Next, L.Enabled, T.Next, T.Enabled, GoodServer, GoodLink, GoodOutput, Serve;
    InBack(n, s, i);
    hide GoodBack;
    Delivery(s.link, s.client.sent);
    ServeRest(n, s, L.Command(i, Brought(s)), T.Next(Telnet, s.link, DELIVERS));
  }

  lemma BreaksRest(n: nat, s: State, i: nat)
    requires GoodRest(n, s) && Enabled(n, s, Breaks(i))
    ensures GoodRest(n, Next(n, s, Breaks(i)))
  {
    hide L.Next, L.Enabled, R.Next, R.Enabled, GoodServer, GoodLink, GoodOutput, Serve;
    InBack(n, s, i);
    hide GoodBack;
    InputEnds(s.link.receiver, s.client);
    var brought := Contents(s.link.receiver.delivered);
    assert brought + [] == brought;
    LinkKeeps(s.link, s.client.sent, T.Receive(R.Fail));
    ServeRest(n, s, L.ReadFails(i), T.Next(Telnet, s.link, T.Receive(R.Fail)));
  }

  lemma BackIsLink(n: nat, s: State)
    requires GoodBack(n, s.server, s.back)
    ensures GoodLink(s.back, Contents(s.back.sender.asked)) && s.back.sender.taken == []
  {}

  lemma OneLess(back: T.State, failed: bool)
    requires T.Enabled(Telnet, back, T.Send(S.Done(failed)))
    ensures var t := T.Next(Telnet, back, T.Send(S.Done(failed)));
            t.receiver == back.receiver && t.sender.asked == back.sender.asked
            && |back.sender.queue| + |back.sender.posted| == |t.sender.queue| + |t.sender.posted| + 1
  {
    hide Encode;
  }

  lemma WrittenRest(n: nat, s: State, i: nat, failed: bool)
    requires GoodRest(n, s) && Enabled(n, s, Written(i, failed))
    ensures GoodRest(n, Next(n, s, Written(i, failed)))
  {
    hide L.Next, L.Enabled, T.Next, T.Enabled, GoodServer, GoodLink, GoodOutput, Serve;
    InBack(n, s, i);
    BackIsLink(n, s);
    hide GoodBack;
    var w := T.Send(S.Done(failed));
    LinkKeeps(s.back, Contents(s.back.sender.asked), w);
    OneLess(s.back, failed);
    var brought := Contents(s.link.receiver.delivered);
    assert brought + [] == brought;
    var t := s.(back := T.Next(Telnet, s.back, w));
    ServeRest(n, t, L.Written(i, failed), s.link);
    SameLink(t, L.Written(i, failed));
  }

  lemma ElsewhereRest(n: nat, s: State, l: L.Event)
    requires GoodRest(n, s) && Enabled(n, s, Elsewhere(l))
    ensures GoodRest(n, Next(n, s, Elsewhere(l)))
  {
    hide L.Next, L.Enabled, GoodLink, GoodOutput, GoodServer, GoodBack;
    ElsewhereServer(n, s.server, l, Contents(s.link.receiver.delivered), s.back);
  }

  /** What goes on between asking and showing asks for nothing and shows nothing. */
  lemma SameAmount(back: T.State, w: T.Event)
    requires T.Enabled(Telnet, back, w) && back.sender.taken == []
    requires w.Send? ==> !w.send.Ask? && !w.send.Answer? && !w.send.Done?
    requires w.Receive? ==> !w.receive.Complete?
    ensures var t := T.Next(Telnet, back, w);
            t.sender.asked == back.sender.asked && t.receiver.delivered == back.receiver.delivered
            && |t.sender.queue| + |t.sender.posted| == |back.sender.queue| + |back.sender.posted|
  {
    hide Encode, Decode;
  }

  lemma BackRest(n: nat, s: State, w: T.Event)
    requires GoodRest(n, s) && Enabled(n, s, Back(w))
    ensures GoodRest(n, Next(n, s, Back(w)))
  {
    hide T.Next, T.Enabled, GoodLink, GoodServer, GoodOutput, LobbyInvariants.Good;
    BackIsLink(n, s);
    LinkKeeps(s.back, Contents(s.back.sender.asked), w);
    SameAmount(s.back, w);
  }

  lemma OutputMore(output: S.State, shown: seq<Text>, c: Text)
    requires GoodOutput(output, shown)
    ensures GoodOutput(Sent(output, c), shown + [c])
  {
    hide T.GoodSender, Sent;
    SentKeeps(Line, output, c);
  }

  lemma ShowsRest(n: nat, s: State)
    requires GoodRest(n, s) && Enabled(n, s, Shows)
    ensures GoodRest(n, Next(n, s, Shows))
  {
    hide T.Next, T.Enabled, GoodLink, GoodServer, LobbyInvariants.Good;
    BackIsLink(n, s);
    Delivery(s.back, Contents(s.back.sender.asked));
    var c := Newest(s.back.receiver, T.Next(Telnet, s.back, DELIVERS).receiver);
    OutputMore(s.output, Contents(s.back.receiver.delivered), c);
    hide GoodOutput;
  }

  lemma OutputRest(n: nat, s: State, f: S.Event)
    requires GoodRest(n, s) && Enabled(n, s, Output(f))
    ensures GoodRest(n, Next(n, s, Output(f)))
  {
    hide GoodLink, GoodServer, GoodBack, S.Good, Encode;
    S.Keeps(s.output, f);
  }

  lemma RestKeeps(n: nat, s: State, e: Event)
    requires GoodRest(n, s) && Enabled(n, s, e)
    ensures GoodRest(n, Next(n, s, e))
  {
    hide GoodRest, Next, Enabled;
    match e {
      case Key(_) => KeyRest(n, s, e);
      case Connects(_) => KeyRest(n, s, e);
      case Wire(w) => WireRest(n, s, w);
      case Welcomed(i, failed) => WelcomedRest(n, s, i, failed);
      case Deliver(i) => DeliverRest(n, s, i);
      case Breaks(i) => BreaksRest(n, s, i);
      case Written(i, failed) => WrittenRest(n, s, i, failed);
      case Elsewhere(l) => ElsewhereRest(n, s, l);
      case Back(w) => BackRest(n, s, w);
      case Shows => ShowsRest(n, s);
      case Output(f) => OutputRest(n, s, f);
    }
  }

  lemma ConnectsKeep(stdin: seq<byte>, s: State, ok: bool)
    requires GoodClient(stdin, s.keys, s.client, s.history)
    ensures var t := Step(s, C.Connection(ok)); GoodClient(stdin, t.keys, t.client, t.history)
  {
    hide R.Good, C.Run, C.LinesOf, SentNew;
    OneMore(s.history, C.Connection(ok));
  }

  lemma OneEvent(e: Event)
    ensures Stdin([e]) == (if e.Key? then R.Arrived([e.key]) else [])
  {
    var b := if e.Key? && e.key.Arrive? then e.key.bytes else [];
    assert Stdin([e]) == b + [];
    if e.Key? {
      assert R.Arrived([e.key]) == b + [];
    }
  }

  lemma ClientKeeps(n: nat, stdin: seq<byte>, s: State, e: Event)
    requires GoodClient(stdin, s.keys, s.client, s.history) && Enabled(n, s, e)
    ensures var t := Next(n, s, e); GoodClient(stdin + Stdin([e]), t.keys, t.client, t.history)
  {
    OneEvent(e);
    assert stdin + [] == stdin;
    hide GoodClient, L.Next, L.Enabled, T.Next, T.Enabled, S.Next, S.Enabled, C.Next;
    if e.Key? {
      KeysKeep(n, stdin, s, e.key);
    } else if e.Connects? {
      ConnectsKeep(stdin, s, e.ok);
    }
  }

  lemma StdinMore(stdin: seq<byte>, es: seq<Event>)
    requires es != []
    ensures stdin + Stdin([es[0]]) + Stdin(es[1..]) == stdin + Stdin(es)
  {
    var b := if es[0].Key? && es[0].key.Arrive? then es[0].key.bytes else [];
    assert Stdin([es[0]]) == b + [] == b;
    assert Stdin(es) == b + Stdin(es[1..]);
    hide Stdin;
    Associate(stdin, b, Stdin(es[1..]));
  }

  lemma {:induction false} KeepsRun(n: nat, stdin: seq<byte>, s: State, es: seq<Event>)
    requires Good(n, stdin, s) && RunOk(n, s, es)
    ensures Good(n, stdin + Stdin(es), Run(n, s, es))
    decreases |es|
  {
    hide GoodClient, GoodRest, Next, Enabled;
    if es == [] {
      assert stdin + [] == stdin;
    } else {
      var e := es[0];
      ClientKeeps(n, stdin, s, e);
      RestKeeps(n, s, e);
      KeepsRun(n, stdin + Stdin([e]), Next(n, s, e), es[1..]);
      StdinMore(stdin, es);
    }
  }
}
