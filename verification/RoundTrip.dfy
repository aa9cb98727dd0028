/**
 * From the keyboard to the commands that a session executes, and from what it
 * answers to the screen: what holds in every run of `FullStack`, whose names for
 * the other modules it takes over.
 */
module RoundTrip {
  import opened Bytes
  import opened Messages
  import opened Framing
  import opened Lines
  import opened FullStack

  // ---- what becomes of texts on a telnet link

  /** The pieces that some texts arrive in: the texts themselves, if they fit telnet. */
  function PiecesOf(texts: seq<Text>): seq<Text> {
    Contents(Pieces(Telnet, Notes(texts)))
  }

  lemma SameEncoding(p: Protocol, ms: seq<Message>, texts: seq<Text>)
    requires !p.Basic? && Contents(ms) == texts
    ensures EncodeAll(p, ms) == EncodeAll(p, Notes(texts))
  {
    assert forall i :: 0 <= i < |ms| ==> ms[i].contents == Contents(ms)[i];
    assert forall i :: 0 <= i < |ms| ==> Notes(texts)[i].contents == Contents(Notes(texts))[i];
    hide Contents, Notes, Concat;
    assert Encodings(p, ms) == Encodings(p, Notes(texts));
  }

  lemma PiecesFit(texts: seq<Text>)
    requires forall a :: a in texts ==> Fits(Telnet, a)
    ensures PiecesOf(texts) == texts
  {
    hide Fits, Pieces, Parse;
    ArrivingIs(Telnet, Notes(texts));
    assert ReceivedAll(Telnet, Notes(texts)) == Notes(texts);
  }

  lemma PiecesGrow(a: seq<Text>, b: seq<Text>)
    requires a <= b
    ensures PiecesOf(a) <= PiecesOf(b)
  {
    hide Pieces, Arriving;
    assert Notes(a) <= Notes(b);
    ArrivingGrows(Telnet, Notes(a), Notes(b));
    ArrivingIs(Telnet, Notes(a));
    ArrivingIs(Telnet, Notes(b));
  }

  /** What a link delivers is a prefix of the pieces of what it was asked for, and in the end all of them. */
  lemma LinkDelivers(link: T.State, sent: seq<Text>)
    requires GoodLink(link, sent)
    ensures Contents(link.receiver.delivered) <= PiecesOf(sent)
    ensures T.Drained(link) && R.Hungry(link.receiver) ==> Contents(link.receiver.delivered) == PiecesOf(sent)
  {
    hide T.Good, Pieces, Parse, EncodeAll, R.Hungry;
    SameEncoding(Telnet, link.sender.asked, sent);
    ArrivingIs(Telnet, Notes(sent));
    T.GoodIsSafe(Telnet, link);
    if T.Drained(link) && R.Hungry(link.receiver) {
      T.DrainedIsComplete(Telnet, link);
    }
  }

  // ---- from the keyboard to the session

  /** The place of the first successful connection. */
  function Up(h: seq<C.Event>): (k: nat)
    ensures k <= |h|
    ensures C.Connection(true) !in h[..k]
    ensures k < |h| ==> h[k] == C.Connection(true)
  {
    if h == [] || h[0] == C.Connection(true) then 0
    else
      var k := 1 + Up(h[1..]);
      assert h[..k] == [h[0]] + h[1..][..k - 1];
      k
  }

  /** The actions that `lines` stand for, when the connection came up as it did in the history `h`. */
  function Wanted(h: seq<C.Event>, lines: seq<Text>): seq<Text> {
    var k := Up(h);
    var m := |C.LinesOf(h[..k])|;
    if k == |h| || |lines| < m then [] else C.Meaning(C.Run(C.INIT, h[..k]), [], lines[m..])
  }

  lemma AfterUp(after: seq<C.Event>)
    ensures C.LinesOf([C.Connection(true)] + after) == C.LinesOf(after)
  {
    assert ([C.Connection(true)] + after)[1..] == after;
    assert [] + C.LinesOf(after) == C.LinesOf(after);
  }

  lemma NotListening(s: C.State, lines: seq<Text>)
    requires !s.listening
    ensures C.Meaning(s, [], lines) == []
  {}

  lemma Deaf(h: seq<C.Event>)
    requires C.InputFails in h
    ensures !C.Run(C.INIT, h).listening
  {
    hide C.Run, C.InPlace;
    C.ReadsOnIff(C.INIT, h);
  }

  /** The client's run, cut where the connection comes up. */
  lemma SentAfterUp(before: seq<C.Event>, after: seq<C.Event>)
    requires C.Connection(true) !in before
    ensures var h, m := before + ([C.Connection(true)] + after), |C.LinesOf(before)|;
            m <= |C.LinesOf(h)| && C.Run(C.INIT, h).sent == C.Meaning(C.Run(C.INIT, before), [], C.LinesOf(h)[m..])
  {
    hide C.Run, C.Next, C.Meaning, C.LinesOf;
    Associate(before, [C.Connection(true)], after);
    C.SendsWhatLinesMean(before, after);
    C.LinesAppend(before, [C.Connection(true)] + after);
    AfterUp(after);
    var h, m := before + ([C.Connection(true)] + after), |C.LinesOf(before)|;
    if C.InputFails in before {
      Deaf(before);
      NotListening(C.Run(C.INIT, before), C.LinesOf(after));
      NotListening(C.Run(C.INIT, before), C.LinesOf(h)[m..]);
    } else {
      assert C.LinesOf(h)[m..] == C.LinesOf(after);
    }
  }

  lemma SentIsWanted(h: seq<C.Event>)
    ensures C.Run(C.INIT, h).sent == Wanted(h, C.LinesOf(h))
  {
    hide C.Run, C.Next, C.Meaning, C.LinesOf;
    var k := Up(h);
    if k == |h| {
      assert h[..k] == h;
      C.OfflineRun(C.INIT, h);
    } else {
      assert h == h[..k] + ([C.Connection(true)] + h[k + 1..]);
      SentAfterUp(h[..k], h[k + 1..]);
    }
  }

  lemma WantedGrows(h: seq<C.Event>, lines: seq<Text>)
    requires C.LinesOf(h) <= lines
    ensures Wanted(h, C.LinesOf(h)) <= Wanted(h, lines)
  {
    hide C.Run, C.Meaning, C.LinesOf;
    var k := Up(h);
    var m := |C.LinesOf(h[..k])|;
    C.LinesAppend(h[..k], h[k..]);
    assert h[..k] + h[k..] == h;
    C.MeaningGrows(C.Run(C.INIT, h[..k]), C.LinesOf(h)[m..], lines[m..]);
  }

  lemma NonEmptyGrows(a: seq<Text>, b: seq<Text>)
    requires a <= b
    ensures C.NonEmpty(a) <= C.NonEmpty(b)
  {
    C.NonEmptyAppend(a, b[|a|..]);
    assert a + b[|a|..] == b;
  }

  /** The lines in a stream of octets. */
  function LinesIn(stdin: seq<byte>): seq<Text> {
    Contents(Parse(Line, stdin).messages)
  }

  lemma LinesAreTyped(stdin: seq<byte>, s: State)
    requires GoodClient(stdin, s.keys, s.client, s.history)
    ensures C.LinesOf(s.history) <= LinesIn(stdin)
    ensures R.Hungry(s.keys) ==> C.LinesOf(s.history) == LinesIn(stdin)
  {
    assert s.keys.protocol == Line;
    hide Parse, C.Run, C.LinesOf, R.Good, R.Hungry;
    var start := T.Listening(Line);
    R.PrefixOfParse(start, stdin, s.keys);
    assert R.Visible(start, stdin) == stdin;
    assert R.New(start, s.keys) == s.keys.delivered;
    if R.Hungry(s.keys) {
      R.HungryIsExact(start, stdin, s.keys);
    }
  }

  /** Nothing typed and nothing sent by the client is under way any more. */
  predicate Arrived(s: State) {
    R.Hungry(s.keys) && T.Drained(s.link) && R.Hungry(s.link.receiver)
  }

  lemma CommandsOf(n: nat, stdin: seq<byte>, s: State, x: L.Session)
    requires Good(n, stdin, s) && x in s.server.sessions && x.serial == n
    ensures var wanted := Wanted(s.history, LinesIn(stdin));
            x.commands <= C.NonEmpty(PiecesOf(wanted)) && (Arrived(s) ==> x.commands == C.NonEmpty(PiecesOf(wanted)))
  {
    hide GoodLink, Wanted, C.NonEmpty, LinesIn, PiecesOf, LobbyInvariants.Good, R.Hungry, T.Drained;
    var wanted := Wanted(s.history, LinesIn(stdin));
    LinesAreTyped(stdin, s);
    hide GoodClient;
    SentIsWanted(s.history);
    WantedGrows(s.history, LinesIn(stdin));
    PiecesGrow(s.client.sent, wanted);
    LinkDelivers(s.link, s.client.sent);
    NonEmptyGrows(Contents(s.link.receiver.delivered), PiecesOf(wanted));
  }

  /**
   * The way to the server. However standard input, the wire and the work of all
   * handlers are cut up and interleaved, and whatever else the server does: the
   * commands that the session on the link has executed are a prefix of the
   * non-empty pieces of the actions that the lines of standard input stand for, which
   * are the actions themselves if they fit telnet; and in the end they are all of them.
   */
  lemma CommandsComeFromLines(n: nat, server: L.State, es: seq<Event>, x: L.Session)
    requires LobbyInvariants.Good(server) && NotConnected(n, server)
    requires RunOk(n, Init(server), es) && x in Run(n, Init(server), es).server.sessions && x.serial == n
    ensures var s := Run(n, Init(server), es);
            var wanted := Wanted(s.history, LinesIn(Stdin(es)));
            C.LinesOf(s.history) <= LinesIn(Stdin(es))
            && x.commands <= C.NonEmpty(PiecesOf(wanted))
            && (Arrived(s) ==> x.commands == C.NonEmpty(PiecesOf(wanted)))
            && ((forall a :: a in wanted ==> Fits(Telnet, a)) ==> PiecesOf(wanted) == wanted)
  {
    hide Wanted, C.NonEmpty, LinesIn, PiecesOf, GoodClient, GoodRest, Run, RunOk, Arrived, Fits;
    GoodInit(n, server);
    KeepsRun(n, [], Init(server), es);
    assert [] + Stdin(es) == Stdin(es);
    var s := Run(n, Init(server), es);
    LinesAreTyped(Stdin(es), s);
    CommandsOf(n, Stdin(es), s, x);
    var wanted := Wanted(s.history, LinesIn(Stdin(es)));
    if forall a :: a in wanted ==> Fits(Telnet, a) {
      PiecesFit(wanted);
    }
  }

  // ---- from the session to the screen

  lemma JoinGrows(a: seq<Text>, b: seq<Text>)
    requires a <= b
    ensures JoinLines(a) <= JoinLines(b)
  {
    JoinAppend(a, b[|a|..]);
    assert a + b[|a|..] == b;
  }

  /** Standard output holds a prefix of what it was asked for, a line each, and in the end all of it. */
  lemma OutputHolds(output: S.State, shown: seq<Text>)
    requires GoodOutput(output, shown)
    ensures output.wire <= JoinLines(shown)
    ensures S.Idle(output) && output.buffer == [] ==> output.wire == JoinLines(shown)
  {
    hide T.GoodSender, EncodeAll;
    SameEncoding(Line, output.asked, shown);
    JoinIsEncoding(shown);
    T.WireIsEncoding(Line, output);
    EncodeAllGrows(Line, S.MessagesOf(output.started), output.asked);
  }

  /** Nothing that the session sent is under way any more. */
  predicate Shown(s: State) {
    T.Drained(s.back) && R.Hungry(s.back.receiver) && S.Idle(s.output) && s.output.buffer == []
  }

  lemma ScreenOf(n: nat, s: State, x: L.Session)
    requires GoodRest(n, s) && x in s.server.sessions && x.serial == n
    ensures s.output.wire <= JoinLines(PiecesOf(x.sent))
    ensures Shown(s) ==> s.output.wire == JoinLines(PiecesOf(x.sent))
  {
    hide GoodLink, GoodOutput, PiecesOf, JoinLines, R.Hungry, T.Drained, S.Idle, LobbyInvariants.Good;
    var shown := Contents(s.back.receiver.delivered);
    LinkDelivers(s.back, x.sent);
    OutputHolds(s.output, shown);
    JoinGrows(shown, PiecesOf(x.sent));
  }

  lemma SentIsReplied(s: L.State, x: L.Session)
    requires LobbyInvariants.Good(s) && x in s.sessions
    ensures x.sent == [] || LobbyInvariants.Replied(x)
  {
    assert LobbyInvariants.Sound(x);
  }

  /**
   * And the way back: standard output holds, a line each, a prefix of the pieces of
   * what the session sent, that is of the greeting and one answer to each of its
   * commands, in order; these are the texts themselves if they fit telnet; and in
   * the end it holds all of them.
   */
  lemma ScreenShowsReplies(n: nat, server: L.State, es: seq<Event>, x: L.Session)
    requires LobbyInvariants.Good(server) && NotConnected(n, server)
    requires RunOk(n, Init(server), es) && x in Run(n, Init(server), es).server.sessions && x.serial == n
    ensures var s := Run(n, Init(server), es);
            s.output.wire <= JoinLines(PiecesOf(x.sent))
            && (Shown(s) ==> s.output.wire == JoinLines(PiecesOf(x.sent)))
            && (x.sent == [] || LobbyInvariants.Replied(x))
            && ((forall a :: a in x.sent ==> Fits(Telnet, a)) ==> PiecesOf(x.sent) == x.sent)
  {
    hide PiecesOf, JoinLines, LobbyInvariants.Good, LobbyInvariants.Replied, Run, RunOk, Shown, Fits;
    hide GoodClient, GoodBack, GoodLink, GoodOutput;
    GoodInit(n, server);
    KeepsRun(n, [], Init(server), es);
    var s := Run(n, Init(server), es);
    SentIsReplied(s.server, x);
    hide GoodRest;
    ScreenOf(n, s, x);
    if forall a :: a in x.sent ==> Fits(Telnet, a) {
      PiecesFit(x.sent);
    }
  }
}
