/** Every command and its reply, octet by octet, in any mode of a session and in every state the server can reach. */
module Commands {
  import opened Bytes
  import opened Messages
  import opened Lines
  import opened Lobby
  import opened LobbyInvariants

  /** The ids of some games, each with an end of line. */
  function Listing(games: seq<Game>): Text {
    if games == [] then [] else Listing(games[..|games| - 1]) + games[|games| - 1].id + [LF]
  }

  lemma {:induction false} ListingIsJoined(games: seq<Game>)
    ensures JoinLines(Ids(games)) == Listing(games)
  {
    if games == [] {
      assert Ids(games) == [];
    } else {
      var front, g := games[..|games| - 1], games[|games| - 1];
      ListingIsJoined(front);
      assert Ids(games) == Ids(front) + [g.id];
      JoinAppend(Ids(front), [g.id]);
      assert JoinLines([g.id]) == g.id + [LF] + [];
      Associate(Listing(front), g.id, [LF]);
    }
  }

  /** After a command a session was sent one text more, and it is `reply`. */
  predicate Answered(x: Session, y: Session, reply: Text) {
    && y.sent == x.sent + [reply] && y.unsent == x.unsent + 1
    && y.serial == x.serial && y.receiving == x.receiving
  }

  /** The command is answered and changes nothing else. */
  predicate OnlyAnswered(s: State, t: State, i: nat, reply: Text) {
    && i < |s.sessions| && |t.sessions| == |s.sessions|
    && Answered(s.sessions[i], t.sessions[i], reply)
    && t.sessions[i].mode == s.sessions[i].mode && t.sessions[i].id == s.sessions[i].id
    && t.games == s.games
  }

  lemma FixedTexts()
    ensures CMD_HELP == Ascii("help") && CMD_USER == Ascii("user ")
    ensures CMD_CREATE == Ascii("game create ") && CMD_LIST == Ascii("game list")
    ensures |CMD_HELP| == 4 && |CMD_USER| == 5 && |CMD_CREATE| == 12 && |CMD_LIST| == 9
    ensures CMD_HELP[0] as int == 'h' as int && CMD_USER[0] as int == 'u' as int
    ensures CMD_CREATE[0] as int == 'g' as int && CMD_LIST[0] as int == 'g' as int
    ensures CMD_CREATE[5] as int == 'c' as int && CMD_LIST[5] as int == 'l' as int
  {}

  lemma Helps(s: State, i: nat)
    requires Good(s) && Enabled(s, Command(i, Ascii("help")))
    ensures OnlyAnswered(s, Next(s, Command(i, Ascii("help"))), i,
              if s.sessions[i].mode.CreatingGame? then Ascii("OK\nStill no help available.\n")
              else Ascii("OK\nNo help available.\n"))
  {
    FixedTexts();
    hide Good, Next, Ascii;
    CommandEffect(s, i, Ascii("help"));
  }

  /** A login is accepted, before any other, exactly if no session has that name. */
  lemma LogsInIff(s: State, i: nat, name: Text)
    requires Good(s) && Enabled(s, Command(i, Ascii("user ") + name))
    ensures var t := Next(s, Command(i, Ascii("user ") + name));
            if !s.sessions[i].mode.Entering? then OnlyAnswered(s, t, i, Ascii("EINVAL\nUnknown command.\n"))
            else if exists j :: 0 <= j < |s.sessions| && s.sessions[j].id == name then
              OnlyAnswered(s, t, i, Ascii("ERROR\n"))
            else
              && i < |t.sessions| && Answered(s.sessions[i], t.sessions[i], Ascii("OK\n"))
              && t.sessions[i].mode.InLobby? && t.sessions[i].id == name && t.games == s.games
  {
    FixedTexts();
    var c := Ascii("user ") + name;
    assert c[5..] == name && CMD_USER <= c && c[0] == CMD_USER[0];
    hide Good, Next, Ascii;
    CommandEffect(s, i, c);
  }

  /** A game is created in the lobby, exactly if none has that id, with its creator as game master under its login. */
  lemma CreatesIff(s: State, i: nat, id: Text)
    requires Good(s) && Enabled(s, Command(i, Ascii("game create ") + id))
    ensures var x, t := s.sessions[i], Next(s, Command(i, Ascii("game create ") + id));
            if !x.mode.InLobby? then OnlyAnswered(s, t, i, Ascii("EINVAL\nUnknown command.\n"))
            else if exists g :: 0 <= g < |s.games| && s.games[g].id == id then OnlyAnswered(s, t, i, Ascii("ERROR\n"))
            else
              && i < |t.sessions| && Answered(x, t.sessions[i], Ascii("OK\nCreated game '") + id + Ascii("'.\n"))
              && t.sessions[i].mode.CreatingGame? && t.sessions[i].id == x.id
              && t.games == s.games + [Game(id, map[x.serial := Player(x.id, Gm)])]
  {
    FixedTexts();
    var c := Ascii("game create ") + id;
    assert c[12..] == id && CMD_CREATE <= c && c[0] == CMD_CREATE[0] && c[5] == CMD_CREATE[5];
    hide Good, Next, Ascii;
    CommandEffect(s, i, c);
  }

  lemma ListsAll(s: State, i: nat)
    requires Good(s) && Enabled(s, Command(i, Ascii("game list")))
    ensures OnlyAnswered(s, Next(s, Command(i, Ascii("game list"))), i,
              if s.sessions[i].mode.InLobby? then Ascii("OK\n") + Listing(s.games)
              else Ascii("EINVAL\nUnknown command.\n"))
  {
    FixedTexts();
    ListingIsJoined(s.games);
    hide Good, Next, Ascii, Listing, JoinLines, Ids;
    CommandEffect(s, i, Ascii("game list"));
  }

  /** Any other text is refused, but for the empty one, which is ignored. */
  lemma RefusesOthers(s: State, i: nat, c: Text)
    requires Good(s) && Enabled(s, Command(i, c))
    requires c != Ascii("help") && c != Ascii("game list")
    requires !(Ascii("user ") <= c) && !(Ascii("game create ") <= c)
    ensures if c == [] then Next(s, Command(i, c)) == s
            else OnlyAnswered(s, Next(s, Command(i, c)), i, Ascii("EINVAL\nUnknown command.\n"))
  {
    FixedTexts();
    hide Good, Next, Ascii;
    CommandEffect(s, i, c);
  }

  /** Whoever is accepted is greeted first. */
  lemma Greets(s: State, i: nat)
    requires Good(s) && Enabled(s, Accept(i, false))
    ensures var t := Next(s, Accept(i, false));
            && i < |t.sessions| && t.sessions[i].sent == [Ascii("Zard\n1")]
            && t.sessions[i].mode.Entering? && t.sessions[i].receiving && t.sessions[i].id == []
            && t.games == s.games && |t.sessions| == |s.sessions| + 1 && t.sessions[|s.sessions|].id == []
  {
    assert Sound(s.sessions[i]) && i == |s.sessions| - 1;
    hide Good, Sound, Ascii;
  }

  /** So over every run: a free name is accepted, and so is a free game id, and no other. */
  lemma AcceptedIffFree(es: seq<Event>, i: nat, c: Text)
    requires RunOk(Init(), es) && i < |Run(Init(), es).sessions| && Run(Init(), es).sessions[i].receiving
    ensures var s := Run(Init(), es); var t := Next(s, Command(i, Ascii("user ") + c));
            s.sessions[i].mode.Entering? && i < |t.sessions| ==>
              (t.sessions[i].mode.InLobby? <==> forall j :: 0 <= j < |s.sessions| ==> s.sessions[j].id != c)
    ensures var s := Run(Init(), es); var t := Next(s, Command(i, Ascii("game create ") + c));
            s.sessions[i].mode.InLobby? ==>
              (|t.games| == |s.games| + 1 <==> forall g :: 0 <= g < |s.games| ==> s.games[g].id != c)
  {
    hide Good, Next, Ascii, Listing;
    GoodInit();
    KeepsRun(Init(), es);
    LogsInIff(Run(Init(), es), i, c);
    CreatesIff(Run(Init(), es), i, c);
  }

  // ---- one run

  /** One more event at the end of a run. */
  lemma {:induction false} RunMore(s: State, es: seq<Event>, e: Event)
    requires RunOk(s, es) && Enabled(Run(s, es), e)
    ensures RunOk(s, es + [e]) && Run(s, es + [e]) == Next(Run(s, es), e)
    decreases |es|
  {
    hide Next, Enabled;
    if es == [] {
      assert es + [e] == [e] && [e][1..] == [];
    } else {
      assert (es + [e])[1..] == es[1..] + [e];
      RunMore(Next(s, es[0]), es[1..], e);
    }
  }

  lemma RunFive(s: State, es: seq<Event>)
    requires |es| == 5 && Enabled(s, es[0])
    requires var s1 := Next(s, es[0]); Enabled(s1, es[1])
    requires var s2 := Next(Next(s, es[0]), es[1]); Enabled(s2, es[2])
    requires var s3 := Next(Next(Next(s, es[0]), es[1]), es[2]); Enabled(s3, es[3])
    requires var s4 := Next(Next(Next(Next(s, es[0]), es[1]), es[2]), es[3]); Enabled(s4, es[4])
    ensures RunOk(s, es)
    ensures Run(s, es) == Next(Next(Next(Next(Next(s, es[0]), es[1]), es[2]), es[3]), es[4])
  {
    hide Next, Enabled;
    assert es[..0] == [] && es[..5] == es;
    RunMore(s, es[..0], es[0]);
    assert es[..0] + [es[0]] == es[..1];
    RunMore(s, es[..1], es[1]);
    assert es[..1] + [es[1]] == es[..2];
    RunMore(s, es[..2], es[2]);
    assert es[..2] + [es[2]] == es[..3];
    RunMore(s, es[..3], es[3]);
    assert es[..3] + [es[3]] == es[..4];
    RunMore(s, es[..4], es[4]);
    assert es[..4] + [es[4]] == es;
  }

  lemma OneWaits()
    ensures var s := Init(); Good(s) && |s.sessions| == 1 && s.sessions[0].accepting && s.games == []
  {
    GoodInit();
  }

  lemma CanRun(s: State, e: Event)
    requires (e.Command? && e.i < |s.sessions| && s.sessions[e.i].receiving)
             || (e.Accept? && e.i < |s.sessions| && s.sessions[e.i].accepting)
    ensures Enabled(s, e)
  {}

  lemma GetsIn(name: Text)
    requires name != []
    ensures var s, e := Init(), Accept(0, false);
            Enabled(s, e) && Enabled(Next(s, e), Command(0, Ascii("user ") + name))
            && var t := Next(Next(s, e), Command(0, Ascii("user ") + name));
            Good(t) && t.games == [] && 0 < |t.sessions| && t.sessions[0].mode.InLobby? && t.sessions[0].receiving
            && t.sessions[0].sent == [Ascii("Zard\n1"), Ascii("OK\n")]
  {
    var s, e, c := Init(), Accept(0, false), Command(0, Ascii("user ") + name);
    hide Init, Good, Next, Enabled, Ascii;
    OneWaits();
    CanRun(s, e);
    Greets(s, 0);
    Keeps(s, e);
    CanRun(Next(s, e), c);
    LogsInIff(Next(s, e), 0, name);
    Keeps(Next(s, e), c);
  }

  lemma LooksAround(s: State, id: Text)
    requires Good(s) && s.games == [] && 0 < |s.sessions| && s.sessions[0].mode.InLobby? && s.sessions[0].receiving
    ensures var a, b := Command(0, Ascii("game list")), Command(0, Ascii("game create ") + id);
            Enabled(s, a) && Enabled(Next(s, a), b)
            && var t := Next(Next(s, a), b);
            Good(t) && 0 < |t.sessions| && t.sessions[0].mode.CreatingGame? && t.sessions[0].receiving
            && t.sessions[0].sent ==
               s.sessions[0].sent + [Ascii("OK\n"), Ascii("OK\nCreated game '") + id + Ascii("'.\n")]
  {
    var a, b := Command(0, Ascii("game list")), Command(0, Ascii("game create ") + id);
    assert Listing([]) == [] && Ascii("OK\n") + [] == Ascii("OK\n");
    hide Good, Next, Enabled, Ascii, Listing;
    CanRun(s, a);
    ListsAll(s, 0);
    Keeps(s, a);
    CanRun(Next(s, a), b);
    CreatesIff(Next(s, a), 0, id);
    Keeps(Next(s, a), b);
  }

  /** What the first client is told when it logs in, looks around, creates a game and asks for help. */
  lemma FirstClient(name: Text, id: Text)
    requires name != []
    ensures var es := [Accept(0, false), Command(0, Ascii("user ") + name), Command(0, Ascii("game list")),
                       Command(0, Ascii("game create ") + id), Command(0, Ascii("help"))];
            RunOk(Init(), es) && 0 < |Run(Init(), es).sessions|
            && Run(Init(), es).sessions[0].sent ==
               [Ascii("Zard\n1"), Ascii("OK\n"), Ascii("OK\n"), Ascii("OK\nCreated game '") + id + Ascii("'.\n"),
                Ascii("OK\nStill no help available.\n")]
  {
    var es := [Accept(0, false), Command(0, Ascii("user ") + name), Command(0, Ascii("game list")),
               Command(0, Ascii("game create ") + id), Command(0, Ascii("help"))];
    hide Init, Good, Next, Enabled, Ascii, Run, RunOk;
    GetsIn(name);
    var s := Next(Next(Init(), es[0]), es[1]);
    LooksAround(s, id);
    var t := Next(Next(s, es[2]), es[3]);
    CanRun(t, es[4]);
    Helps(t, 0);
    RunFive(Init(), es);
  }
}
