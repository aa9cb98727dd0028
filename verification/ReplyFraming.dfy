/**
 * The server speaks telnet to its sessions. Which of its replies arrive as the
 * one message they were sent as?
 */
module ReplyFraming {
  import opened Bytes
  import opened Messages
  import opened Framing
  import opened Lines
  import opened Commands
  import opened Lobby
  import opened LobbyInvariants
  import opened LobbyHistory

  lemma FitsConcat(a: Text, b: Text)
    requires Fits(Telnet, a) && Fits(Telnet, b)
    requires EndsWithCr(a) && b != [] ==> b[0] != LF
    ensures Fits(Telnet, a + b)
  {}

  lemma FitsSuffix(c: Text, k: nat)
    requires Fits(Telnet, c) && k <= |c|
    ensures Fits(Telnet, c[k..])
  {}

  predicate NoCr(c: Text) {
    forall i :: 0 <= i < |c| ==> c[i] != CR
  }

  lemma AsciiNoCr(s: string)
    requires forall i :: 0 <= i < |s| ==> s[i] < '\U{0100}' && s[i] != '\r'
    ensures NoCr(Ascii(s))
  {}

  /** The fixed texts of the server hold no carriage return. */
  lemma FixedTextsFit()
    ensures NoCr(GREETING) && NoCr(OK) && NoCr(HELP) && NoCr(GAME_HELP) && NoCr(UNKNOWN) && NoCr(ERROR)
    ensures NoCr(CREATED_FRONT) && NoCr(CREATED_BACK)
  {
    hide Ascii, NoCr;
    AsciiNoCr("Zard\n1");
    AsciiNoCr("OK\n");
    AsciiNoCr("OK\nNo help available.\n");
    AsciiNoCr("OK\nStill no help available.\n");
    AsciiNoCr("EINVAL\nUnknown command.\n");
    AsciiNoCr("ERROR\n");
    AsciiNoCr("OK\nCreated game '");
    AsciiNoCr("'.\n");
  }

  predicate IdsFit(games: seq<Game>) {
    forall g :: 0 <= g < |games| ==> Fits(Telnet, games[g].id)
  }

  /** The reply to a created game always fits: the quote keeps the id from the newline behind it. */
  lemma CreatedFits(id: Text)
    requires Fits(Telnet, id)
    ensures Fits(Telnet, Created(id))
  {
    FixedTextsFit();
    FitsConcat(CREATED_FRONT, id);
    assert CREATED_BACK[0] as int == '\'' as int;
    FitsConcat(CREATED_FRONT + id, CREATED_BACK);
  }

  /** The game list fits exactly when no id ends with a carriage return. */
  lemma ListFits(games: seq<Game>)
    requires IdsFit(games)
    ensures Fits(Telnet, ListReply(games)) <==> forall g :: 0 <= g < |games| ==> !EndsWithCr(games[g].id)
  {
    var ids := Ids(games);
    JoinFitsTelnet(ids);
    FixedTextsFit();
    var ok := OK[..2];
    assert OK[2] as int == '\n' as int && OK[1] as int == 'K' as int;
    assert OK == ok + [LF];
    LineInFront(ok, JoinLines(ids));
    assert forall g :: 0 <= g < |games| ==> ids[g] == games[g].id;
  }

  /** Split at its newlines the reply is an OK and the ids of the games, in order of creation. */
  predicate SplitsInto(reply: Text, games: seq<Game>) {
    var r := Parse(Line, reply);
    var lines := Contents(r.messages);
    && r.rest == [] && |lines| == |games| + 1 && lines[0] == Ascii("OK")
    && forall g :: 0 <= g < |games| ==> lines[g + 1] == games[g].id
  }

  lemma SplitsIs(reply: Text, games: seq<Game>)
    requires var r := Parse(Line, reply); r.rest == [] && Contents(r.messages) == [Ascii("OK")] + Ids(games)
    ensures SplitsInto(reply, games)
  {
    hide Parse, Contents, Ascii;
  }

  lemma JoinFirst(line: Text, lines: seq<Text>)
    ensures JoinLines([line] + lines) == line + [LF] + JoinLines(lines)
  {
    assert ([line] + lines)[1..] == lines;
  }

  lemma OkFits()
    ensures Fits(Line, Ascii("OK")) && Ascii("OK") + [LF] == Ascii("OK\n")
  {
    var ok, s := Ascii("OK"), Ascii("OK\n");
    assert ok[0] as int == 'O' as int && ok[1] as int == 'K' as int;
    assert s[0] as int == 'O' as int && s[1] as int == 'K' as int && s[2] as int == '\n' as int;
  }

  lemma ListSplits(games: seq<Game>)
    requires forall g :: 0 <= g < |games| ==> Fits(Line, games[g].id)
    ensures SplitsInto(Ascii("OK\n") + Listing(games), games)
  {
    hide Parse, Fits, JoinLines, Listing, Ascii, Contents, SplitsInto;
    var ok, ids := Ascii("OK"), Ids(games);
    ListingIsJoined(games);
    JoinFirst(ok, ids);
    OkFits();
    forall g | 0 <= g < |[ok] + ids|
      ensures Fits(Line, ([ok] + ids)[g])
    {
      if g > 0 {
        assert ([ok] + ids)[g] == games[g - 1].id;
      }
    }
    SplitUndoesJoin([ok] + ids);
    SplitsIs(Ascii("OK\n") + Listing(games), games);
  }

  /** So, as long as no id holds a newline, is every list that a session was sent, for the first so many games. */
  lemma ListRepliesSplit(es: seq<Event>, i: nat, k: nat)
    requires RunOk(Init(), es) && i < |Run(Init(), es).sessions|
    requires var x := Run(Init(), es).sessions[i]; k < |x.commands| && x.commands[k] == Ascii("game list")
    requires forall g :: 0 <= g < |Run(Init(), es).games| ==> Fits(Line, Run(Init(), es).games[g].id)
    ensures var s := Run(Init(), es);
            k + 1 < |s.sessions[i].sent|
            && (s.sessions[i].sent[k + 1] == Ascii("EINVAL\nUnknown command.\n")
                || exists n :: 0 <= n <= |s.games| && SplitsInto(s.sessions[i].sent[k + 1], s.games[..n]))
  {
    hide SplitsInto, Listing, Fits, Ascii, Run, RunOk, Init;
    ListRepliesAreGames(es, i, k);
    var s := Run(Init(), es);
    var reply := s.sessions[i].sent[k + 1];
    if reply != UNKNOWN {
      var n :| 0 <= n <= |s.games| && reply == Ascii("OK\n") + Listing(s.games[..n]);
      ListSplits(s.games[..n]);
    }
  }

  /**
   * Of all replies to telnet commands only the game list can break, and it does
   * so exactly when an id ends with a carriage return.
   */
  lemma ReplyFitsIff(s: State, i: nat, command: Text)
    requires i < |s.sessions| && command != [] && Fits(Telnet, command) && IdsFit(s.games)
    ensures Fits(Telnet, ReplyOf(EffectOf(s, i, command))) <==>
            (s.sessions[i].mode.InLobby? && command == CMD_LIST
             ==> forall g :: 0 <= g < |s.games| ==> !EndsWithCr(s.games[g].id))
  {
    FixedTextsFit();
    ListFits(s.games);
    var e := EffectOf(s, i, command);
    assert |CMD_LIST| == 9 && |CMD_HELP| == 4 && |CMD_CREATE| == 12;
    if e.Creates? {
      FitsSuffix(command, |CMD_CREATE|);
      CreatedFits(e.id);
    }
  }

  /** Commands that came through a telnet receiver; see `Receiving.DeliversFramable`. */
  predicate FromTelnet(es: seq<Event>) {
    forall k :: 0 <= k < |es| && es[k].Command? ==> Fits(Telnet, es[k].text)
  }

  lemma {:induction false} IdsFitRun(s: State, es: seq<Event>)
    requires Good(s) && RunOk(s, es) && FromTelnet(es) && IdsFit(s.games)
    ensures IdsFit(Run(s, es).games)
    decreases |es|
  {
    hide Good;
    if es != [] {
      var e := es[0];
      var t := Next(s, e);
      Keeps(s, e);
      if e.Command? {
        CommandEffect(s, e.i, e.text);
        if CMD_CREATE <= e.text {
          FitsSuffix(e.text, |CMD_CREATE|);
        }
      }
      IdsFitRun(t, es[1..]);
    }
  }

  /** Over every run on telnet: a further command is answered in one frame exactly as above. */
  lemma RepliesFrame(es: seq<Event>, i: nat, command: Text)
    requires RunOk(Init(), es) && FromTelnet(es)
    requires command != [] && Fits(Telnet, command) && Enabled(Run(Init(), es), Command(i, command))
    ensures var s, t := Run(Init(), es), Next(Run(Init(), es), Command(i, command));
            i < |t.sessions| && |t.sessions[i].sent| > 0
            && (Fits(Telnet, t.sessions[i].sent[|t.sessions[i].sent| - 1]) <==>
                (s.sessions[i].mode.InLobby? && command == CMD_LIST
                 ==> forall g :: 0 <= g < |s.games| ==> !EndsWithCr(s.games[g].id)))
  {
    GoodInit();
    KeepsRun(Init(), es);
    IdsFitRun(Init(), es);
    hide Good, Next;
    CommandEffect(Run(Init(), es), i, command);
    ReplyFitsIff(Run(Init(), es), i, command);
  }

  // ---- a run in which it breaks

  lemma Accepted(s: State, b: nat)
    requires Good(s) && b + 1 == |s.sessions| && s.sessions[b].accepting
    ensures Enabled(s, Accept(b, false))
    ensures var t := Next(s, Accept(b, false));
            Good(t) && t.games == s.games && |t.sessions| == b + 2 && t.sessions[..b] == s.sessions[..b]
            && t.sessions[b].mode.Entering? && t.sessions[b].receiving && t.sessions[b].id == []
            && t.sessions[b + 1].accepting && t.sessions[b + 1].id == []
  {
    Keeps(s, Accept(b, false));
    assert Sound(s.sessions[b]);
    hide Good, Sound;
  }

  lemma LoggedIn(s: State, i: nat, name: Text)
    requires Good(s) && i < |s.sessions| && s.sessions[i].mode.Entering? && s.sessions[i].receiving
    requires !UserExists(s, name)
    ensures Enabled(s, Command(i, CMD_USER + name))
    ensures var t := Next(s, Command(i, CMD_USER + name));
            Good(t) && t.games == s.games && |t.sessions| == |s.sessions|
            && (forall j :: 0 <= j < |t.sessions| && j != i ==> t.sessions[j] == s.sessions[j])
            && t.sessions[i].mode.InLobby? && t.sessions[i].receiving && t.sessions[i].id == name
  {
    Keeps(s, Command(i, CMD_USER + name));
    CommandEffect(s, i, CMD_USER + name);
    assert (CMD_USER + name)[|CMD_USER|..] == name;
    assert |CMD_USER| == 5 && |CMD_HELP| == 4;
    hide Good, Next;
  }

  lemma GameMade(s: State, i: nat, id: Text)
    requires Good(s) && i < |s.sessions| && s.sessions[i].mode.InLobby? && s.sessions[i].receiving && s.games == []
    ensures Enabled(s, Command(i, CMD_CREATE + id))
    ensures var t := Next(s, Command(i, CMD_CREATE + id));
            Good(t) && |t.games| == 1 && t.games[0].id == id && |t.sessions| == |s.sessions|
            && forall j :: 0 <= j < |t.sessions| ==>
                 t.sessions[j].id == s.sessions[j].id && t.sessions[j].accepting == s.sessions[j].accepting
  {
    Keeps(s, Command(i, CMD_CREATE + id));
    CommandEffect(s, i, CMD_CREATE + id);
    assert (CMD_CREATE + id)[|CMD_CREATE|..] == id;
    assert |CMD_CREATE| == 12 && |CMD_HELP| == 4;
    hide Good, Next;
  }

  /** Two sessions log in, and the first creates a game. */
  function TwoLogins(a: Text, b: Text, id: Text): seq<Event> {
    [Accept(0, false), Command(0, CMD_USER + a), Command(0, CMD_CREATE + id),
     Accept(1, false), Command(1, CMD_USER + b)]
  }

  lemma TwoLoginsRun(a: Text, b: Text, id: Text)
    requires a != [] && b != [] && a != b
    ensures RunOk(Init(), TwoLogins(a, b, id))
    ensures var t := Run(Init(), TwoLogins(a, b, id));
            1 < |t.sessions| && t.sessions[1].mode.InLobby? && t.sessions[1].receiving
            && |t.games| == 1 && t.games[0].id == id
  {
    hide Good, Next, Enabled, RunOk, Run, Init;
    var es, s := TwoLogins(a, b, id), Init();
    OneWaits();
    Accepted(s, 0);
    var s1 := Next(s, es[0]);
    LoggedIn(s1, 0, a);
    var s2 := Next(s1, es[1]);
    GameMade(s2, 0, id);
    var s3 := Next(s2, es[2]);
    Accepted(s3, 1);
    var s4 := Next(s3, es[3]);
    LoggedIn(s4, 1, b);
    RunFive(s, es);
  }

  lemma CommandTextsFit()
    ensures NoCr(CMD_USER) && NoCr(CMD_CREATE) && NoCr(CMD_LIST)
  {
    hide Ascii;
    AsciiNoCr("user ");
    AsciiNoCr("game create ");
    AsciiNoCr("game list");
  }

  /** Two connections and four commands from the start are enough for a list that does not fit, by the id alone. */
  lemma FirstListFitsIff(a: Text, b: Text, id: Text)
    requires a != [] && b != [] && a != b && Fits(Telnet, a) && Fits(Telnet, b) && Fits(Telnet, id)
    ensures RunOk(Init(), TwoLogins(a, b, id)) && FromTelnet(TwoLogins(a, b, id))
    ensures Enabled(Run(Init(), TwoLogins(a, b, id)), Command(1, CMD_LIST))
    ensures var t := Next(Run(Init(), TwoLogins(a, b, id)), Command(1, CMD_LIST));
            1 < |t.sessions| && t.sessions[1].sent != []
            && (Fits(Telnet, t.sessions[1].sent[|t.sessions[1].sent| - 1]) <==> !EndsWithCr(id))
  {
    TwoLoginsRun(a, b, id);
    CommandTextsFit();
    FitsConcat(CMD_USER, a);
    FitsConcat(CMD_USER, b);
    FitsConcat(CMD_CREATE, id);
    assert |CMD_LIST| == 9;
    hide Run, RunOk, Next, Fits;
    RepliesFrame(TwoLogins(a, b, id), 1, CMD_LIST);
  }

  lemma ShortTexts()
    ensures var a, b, id := Ascii("a"), Ascii("b"), Ascii("x\r");
            a != [] && b != [] && a != b && Fits(Telnet, a) && Fits(Telnet, b) && Fits(Telnet, id) && EndsWithCr(id)
  {
    assert Ascii("a")[0] as int == 'a' as int && Ascii("b")[0] as int == 'b' as int;
    assert Ascii("x\r")[0] as int == 'x' as int && Ascii("x\r")[1] as int == '\r' as int;
  }

  /** One of them: the id is an x and a carriage return. */
  lemma ListBreaks()
    ensures var es := TwoLogins(Ascii("a"), Ascii("b"), Ascii("x\r"));
            RunOk(Init(), es) && Enabled(Run(Init(), es), Command(1, CMD_LIST))
            && var t := Next(Run(Init(), es), Command(1, CMD_LIST));
            1 < |t.sessions| && t.sessions[1].sent != []
            && !Fits(Telnet, t.sessions[1].sent[|t.sessions[1].sent| - 1])
  {
    ShortTexts();
    hide Ascii, Run, RunOk, Next, Fits, Enabled, TwoLogins;
    FirstListFitsIff(Ascii("a"), Ascii("b"), Ascii("x\r"));
  }
}
