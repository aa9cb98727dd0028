/** What holds over whole runs of the server: histories of sessions and games, and what can never happen again. */
module LobbyHistory {
  import opened Bytes
  import opened Commands
  import opened Lines
  import opened Lobby
  import opened LobbyInvariants

  // ---- the reachable states

  /** Login, accept and game invariants, spelled out for every reachable state. */
  lemma ReachableIsSound(es: seq<Event>)
    requires RunOk(Init(), es)
    ensures var s := Run(Init(), es);
            && (forall i :: 0 <= i < |s.sessions| ==> (s.sessions[i].id == [] <==> s.sessions[i].mode.Entering?))
            && (forall i, j :: 0 <= i < j < |s.sessions| && s.sessions[i].id == s.sessions[j].id ==>
                  s.sessions[i].id == [])
            && (forall i :: 0 <= i < |s.sessions| ==>
                  (s.sessions[i].accepting <==> s.sessions[i].status.WaitForConnection?))
            && (forall i :: 0 <= i < |s.sessions| && s.sessions[i].accepting ==> i == |s.sessions| - 1)
            && (forall i, j :: 0 <= i < j < |s.sessions| ==> s.sessions[i].serial < s.sessions[j].serial)
            && (forall g, h :: 0 <= g < h < |s.games| ==> s.games[g].id != s.games[h].id)
  {
    GoodInit();
    KeepsRun(Init(), es);
    var s := Run(Init(), es);
    forall i | 0 <= i < |s.sessions|
      ensures Sound(s.sessions[i])
    {}
  }

  /** In every reachable state each accepted session was sent its greeting and a reply to each non-empty command. */
  lemma RepliesAreConserved(es: seq<Event>, i: nat)
    requires RunOk(Init(), es) && i < |Run(Init(), es).sessions|
    ensures var x := Run(Init(), es).sessions[i];
            x.status.Connected? || x.status.Disconnected? || x.sent != [] ==> Replied(x)
    ensures var x := Run(Init(), es).sessions[i];
            x.sent == [] ==> x.commands == [] && !x.receiving
  {
    GoodInit();
    KeepsRun(Init(), es);
    assert Sound(Run(Init(), es).sessions[i]);
  }

  /** A reply to `game list`: refused, or the games there were at some time, in order of creation. */
  predicate ListsGames(games: seq<Game>, reply: Text) {
    reply == UNKNOWN || exists n :: 0 <= n <= |games| && reply == Ascii("OK\n") + Listing(games[..n])
  }

  predicate Lists(x: Session, games: seq<Game>) {
    forall k :: 0 <= k < |x.commands| && k + 1 < |x.sent| && x.commands[k] == CMD_LIST ==>
                  ListsGames(games, x.sent[k + 1])
  }

  predicate AllList(s: State) {
    forall i :: 0 <= i < |s.sessions| ==> Lists(s.sessions[i], s.games)
  }

  lemma ListsGrow(x: Session, games: seq<Game>, more: seq<Game>)
    requires Lists(x, games) && games <= more
    ensures Lists(x, more)
  {
    hide Listing, Ascii;
    forall k | 0 <= k < |x.commands| && k + 1 < |x.sent| && x.commands[k] == CMD_LIST && x.sent[k + 1] != UNKNOWN
      ensures ListsGames(more, x.sent[k + 1])
    {
      var n :| 0 <= n <= |games| && x.sent[k + 1] == Ascii("OK\n") + Listing(games[..n]);
      assert more[..n] == games[..n];
    }
  }

  lemma ListAnswered(s: State, i: nat)
    requires i < |s.sessions|
    ensures ListsGames(s.games, ReplyOf(EffectOf(s, i, CMD_LIST))) && !EffectOf(s, i, CMD_LIST).Creates?
  {
    FixedTexts();
    ListingIsJoined(s.games);
    assert s.games[..|s.games|] == s.games;
    hide Ascii, Listing, JoinLines, Ids;
  }

  lemma ReplyLists(x: Session, games: seq<Game>, command: Text, e: Effect)
    requires Lists(x, games) && |x.sent| == 1 + |x.commands|
    requires command == CMD_LIST ==> ListsGames(games, ReplyOf(e))
    ensures Lists(Affected(x, command, e), games)
  {
    hide ListsGames, ReplyOf;
  }

  lemma CommandLists(s: State, i: nat, text: Text)
    requires Good(s) && AllList(s) && Enabled(s, Command(i, text)) && text != []
    ensures AllList(AfterEffect(s, i, text, EffectOf(s, i, text)))
  {
    var x, e := s.sessions[i], EffectOf(s, i, text);
    assert Sound(x);
    assert |x.sent| == 1 + |x.commands|;
    hide Good, Sound, EffectOf, Lists, Affected, ReplyOf;
    var t := AfterEffect(s, i, text, e);
    if text == CMD_LIST {
      ListAnswered(s, i);
    }
    ReplyLists(x, s.games, text, e);
    forall j | 0 <= j < |t.sessions|
      ensures Lists(t.sessions[j], t.games)
    {
      ListsGrow(if j == i then Affected(x, text, e) else s.sessions[j], s.games, t.games);
    }
  }

  lemma AcceptLists(s: State, i: nat, failed: bool)
    requires AllList(s) && Enabled(s, Accept(i, failed)) && Sound(s.sessions[i]) && OnlyBackWaits(s.sessions)
    ensures AllList(Next(s, Accept(i, failed)))
  {
    assert s.sessions[i].sent == [] && s.sessions[i].commands == [];
    hide Sound, ListsGames;
  }

  lemma ReapLists(s: State)
    requires AllList(s)
    ensures AllList(Next(s, Reap))
  {
    hide Lists;
    SurvivorsMembers(s.sessions);
    forall i | 0 <= i < |Next(s, Reap).sessions|
      ensures Lists(Next(s, Reap).sessions[i], s.games)
    {
      assert Next(s, Reap).sessions[i] in s.sessions;
    }
  }

  lemma OtherLists(s: State, e: Event)
    requires AllList(s) && Enabled(s, e) && (e.ReadFails? || e.Written?)
    ensures AllList(Next(s, e))
  {
    hide ListsGames;
  }

  lemma StepLists(s: State, e: Event)
    requires Good(s) && AllList(s) && Enabled(s, e)
    ensures AllList(Next(s, e))
  {
    if e.Accept? {
      assert Sound(s.sessions[e.i]) && OnlyBackWaits(s.sessions);
    }
    hide Good, Sound, OnlyBackWaits, AllList, Next;
    match e {
      case Command(i, text) =>
        CommandEffect(s, i, text);
        if text != [] {
          CommandLists(s, i, text);
        }
      case Accept(i, failed) => AcceptLists(s, i, failed);
      case Reap => ReapLists(s);
      case _ => OtherLists(s, e);
    }
  }

  lemma {:induction false} ListsRun(s: State, es: seq<Event>)
    requires Good(s) && AllList(s) && RunOk(s, es)
    ensures AllList(Run(s, es))
    decreases |es|
  {
    hide Good, Next, Enabled, AllList;
    if es != [] {
      Keeps(s, es[0]);
      StepLists(s, es[0]);
      ListsRun(Next(s, es[0]), es[1..]);
    }
  }

  /** Every list that a session was sent holds the first so many of the games, in order of creation. */
  lemma ListRepliesAreGames(es: seq<Event>, i: nat, k: nat)
    requires RunOk(Init(), es) && i < |Run(Init(), es).sessions|
    requires var x := Run(Init(), es).sessions[i]; k < |x.commands| && x.commands[k] == CMD_LIST
    ensures var s := Run(Init(), es);
            k + 1 < |s.sessions[i].sent| && ListsGames(s.games, s.sessions[i].sent[k + 1])
  {
    hide ListsGames;
    RepliesAreConserved(es, i);
    GoodInit();
    ListsRun(Init(), es);
  }

  // ---- sessions over time

  function Rank(m: Mode): nat {
    match m
    case Entering => 0
    case InLobby => 1
    case CreatingGame => 2
  }

  /** `y` is a later state of `x`: the mode only goes forward, a login stays, and the texts only grow. */
  predicate Progress(x: Session, y: Session) {
    && x.serial == y.serial
    && Rank(x.mode) <= Rank(y.mode)
    && (x.id != [] ==> y.id == x.id)
    && x.sent <= y.sent
    && x.commands <= y.commands
  }

  ghost predicate Came(ss: seq<Session>, y: Session) {
    exists i :: 0 <= i < |ss| && Progress(ss[i], y)
  }

  lemma PutProgress(s: State, i: nat, x: Session, j: nat)
    requires i < |s.sessions| && j < |s.sessions| && Progress(s.sessions[i], x)
    ensures Came(s.sessions, Put(s, i, x).sessions[j])
  {}

  lemma SameProgress(ss: seq<Session>, y: Session)
    requires y in ss
    ensures Came(ss, y)
  {}

  lemma CommandHistory(s: State, i: nat, text: Text, j: nat)
    requires Good(s) && Enabled(s, Command(i, text)) && j < |Next(s, Command(i, text)).sessions|
    ensures Came(s.sessions, Next(s, Command(i, text)).sessions[j])
  {
    assert Sound(s.sessions[i]);
    hide Good, Next;
    CommandEffect(s, i, text);
    if text == [] {
      SameProgress(s.sessions, s.sessions[j]);
    } else {
      PutProgress(s, i, Affected(s.sessions[i], text, EffectOf(s, i, text)), j);
    }
  }

  lemma StepHistory(s: State, e: Event, j: nat)
    requires Good(s) && Enabled(s, e) && j < |Next(s, e).sessions|
    ensures var y := Next(s, e).sessions[j]; y.serial == s.created || Came(s.sessions, y)
  {
    var t := Next(s, e);
    match e {
      case Accept(i, failed) =>
        assert i == |s.sessions| - 1;
        hide Good;
        if j < |s.sessions| {
          assert Progress(s.sessions[j], t.sessions[j]);
        }
      case Command(i, text) => CommandHistory(s, i, text, j);
      case ReadFails(i) => PutProgress(s, i, t.sessions[i], j);
      case Written(i, _) => PutProgress(s, i, t.sessions[i], j);
      case Reap =>
        SurvivorsMembers(s.sessions);
        assert t.sessions[j] in s.sessions;
        SameProgress(s.sessions, t.sessions[j]);
    }
  }

  lemma CreatedGrows(s: State, e: Event)
    requires Good(s) && Enabled(s, e)
    ensures s.created <= Next(s, e).created && s.games <= Next(s, e).games
  {
    hide Good;
    if e.Command? {
      CommandEffect(s, e.i, e.text);
    }
  }

  lemma ProgressTwice(ss: seq<Session>, z: Session, y: Session, created: nat)
    requires z.serial == created || Came(ss, z)
    requires Progress(z, y)
    ensures y.serial >= created || Came(ss, y)
  {}

  /** Over any run a session in the list is a later state of itself, or was created on the way; games only get added. */
  lemma {:induction false} RunHistory(s: State, es: seq<Event>)
    requires Good(s) && RunOk(s, es)
    ensures forall y :: y in Run(s, es).sessions ==> y.serial >= s.created || Came(s.sessions, y)
    ensures s.games <= Run(s, es).games
    decreases |es|
  {
    hide Good, Next, Enabled, Progress;
    if es == [] {
      forall y | y in s.sessions
        ensures Came(s.sessions, y)
      {
        SameProgress(s.sessions, y);
      }
    } else {
      var t := Next(s, es[0]);
      Keeps(s, es[0]);
      CreatedGrows(s, es[0]);
      RunHistory(t, es[1..]);
      forall y | y in Run(s, es).sessions
        ensures y.serial >= s.created || Came(s.sessions, y)
      {
        if y.serial < t.created {
          var j :| 0 <= j < |t.sessions| && Progress(t.sessions[j], y);
          StepHistory(s, es[0], j);
          ProgressTwice(s.sessions, t.sessions[j], y, s.created);
        }
      }
    }
  }

  function Serials(ss: seq<Session>): set<nat> {
    set i | 0 <= i < |ss| :: ss[i].serial
  }

  /** Any other step leaves every session in its place, at most one mode further. */
  lemma StaysAt(s: State, e: Event, i: nat)
    requires Good(s) && Enabled(s, e) && i < |s.sessions| && !e.Reap?
    ensures i < |Next(s, e).sessions|
    ensures var x, y := s.sessions[i], Next(s, e).sessions[i];
            y.serial == x.serial && Rank(x.mode) <= Rank(y.mode) <= Rank(x.mode) + 1
  {
    hide Good;
    if e.Command? {
      CommandEffect(s, e.i, e.text);
    }
  }

  ghost predicate GoneAfter(s: State, es: seq<Event>, serial: nat) {
    RunOk(s, es) && forall y :: y in Run(s, es).sessions ==> y.serial != serial
  }

  lemma ReapRemoves(s: State, i: nat)
    requires Good(s) && i < |s.sessions| && s.sessions[i].status.Reapable?
    ensures GoneAfter(s, [Reap], s.sessions[i].serial)
  {
    SurvivorsMembers(s.sessions);
    assert Run(s, [Reap]) == Next(s, Reap);
    forall y | y in Survivors(s.sessions)
      ensures y.serial != s.sessions[i].serial
    {
      var j :| 0 <= j < |s.sessions| && s.sessions[j] == y;
    }
  }

  /** A session leaves the list exactly when the reaper runs while it is reapable. */
  lemma LeavesIffReaped(s: State, e: Event, i: nat)
    requires Good(s) && Enabled(s, e) && i < |s.sessions|
    ensures s.sessions[i].serial !in Serials(Next(s, e).sessions) <==> e.Reap? && s.sessions[i].status.Reapable?
  {
    var x, t := s.sessions[i], Next(s, e);
    if e.Reap? {
      SurvivorsMembers(s.sessions);
      if x.status.Reapable? {
        ReapRemoves(s, i);
        assert Run(s, [Reap]) == t;
      }
    } else {
      StaysAt(s, e, i);
      assert t.sessions[i].serial in Serials(t.sessions);
    }
  }

  // ---- games over time

  /** The sessions that are creating a game. */
  function Creating(s: State): set<nat> {
    set i | 0 <= i < |s.sessions| && s.sessions[i].mode.CreatingGame? :: s.sessions[i].serial
  }

  /** The game masters of all games. */
  function Masters(games: seq<Game>): set<nat> {
    if games == [] then {} else Masters(games[..|games| - 1]) + games[|games| - 1].players.Keys
  }

  /** The sessions that were ever creating a game during a run. */
  function Ever(s: State, es: seq<Event>): set<nat>
    requires RunOk(s, es)
    decreases |es|
  {
    Creating(s) + if es == [] then {} else Ever(Next(s, es[0]), es[1..])
  }

  lemma {:induction false} MastersAre(games: seq<Game>, n: nat)
    ensures n in Masters(games) <==> HasGame(games, n)
  {
    if games != [] {
      var front, g := games[..|games| - 1], games[|games| - 1];
      MastersAre(front, n);
      if HasGame(front, n) {
        var h :| 0 <= h < |front| && n in front[h].players;
        assert n in games[h].players;
      }
      if HasGame(games, n) && n !in g.players {
        var h :| 0 <= h < |games| && n in games[h].players;
        assert n in front[h].players;
      }
    }
  }

  lemma CreatingAreMasters(s: State)
    requires Good(s)
    ensures Creating(s) <= Masters(s.games)
  {
    forall n | n in Creating(s)
      ensures n in Masters(s.games)
    {
      var i :| 0 <= i < |s.sessions| && s.sessions[i].mode.CreatingGame? && s.sessions[i].serial == n;
      assert Matched(s.sessions[i], s.games);
      MastersAre(s.games, n);
    }
  }

  /** A step adds at most one game, whose master then is creating it. */
  lemma StepGames(s: State, e: Event)
    requires Good(s) && Enabled(s, e)
    ensures var t := Next(s, e);
            t.games == s.games
            || (|t.games| > 0 && t.games[..|t.games| - 1] == s.games
                && t.games[|t.games| - 1].players.Keys <= Creating(t))
  {
    hide Good;
    if e.Command? && e.text != [] {
      var t := Next(s, e);
      CommandEffect(s, e.i, e.text);
      if EffectOf(s, e.i, e.text).Creates? {
        assert t.games[..|t.games| - 1] == s.games;
        assert t.sessions[e.i].serial in Creating(t);
      }
    }
  }

  lemma StepMasters(s: State, e: Event)
    requires Good(s) && Enabled(s, e)
    ensures Masters(Next(s, e).games) == Masters(s.games) + Creating(Next(s, e))
  {
    hide Good, Next, Enabled, Creating;
    StepGames(s, e);
    Keeps(s, e);
    CreatingAreMasters(Next(s, e));
  }

  lemma {:induction false} EverAreMasters(s: State, es: seq<Event>)
    requires Good(s) && RunOk(s, es)
    ensures Masters(Run(s, es).games) == Masters(s.games) + Ever(s, es)
    decreases |es|
  {
    hide Good, Next, Enabled;
    CreatingAreMasters(s);
    if es != [] {
      StepMasters(s, es[0]);
      Keeps(s, es[0]);
      EverAreMasters(Next(s, es[0]), es[1..]);
    }
  }

  lemma {:induction false} MastersCount(games: seq<Game>, created: nat)
    requires SoundGames(games, created)
    ensures |Masters(games)| == |games|
  {
    if games != [] {
      var front, g := games[..|games| - 1], games[|games| - 1];
      MastersCount(front, created);
      var n :| n in g.players && n < created && g.players.Keys == {n} && g.players[n].role.Gm?;
      MastersAre(front, n);
      assert !HasGame(front, n);
    }
  }

  /** One game for each session that ever created one, over every run: as many games as creators, and the same. */
  lemma GamesMatchCreators(es: seq<Event>)
    requires RunOk(Init(), es)
    ensures var s := Run(Init(), es);
            Masters(s.games) == Ever(Init(), es) && |s.games| == |Ever(Init(), es)|
  {
    GoodInit();
    KeepsRun(Init(), es);
    EverAreMasters(Init(), es);
    var s := Run(Init(), es);
    MastersCount(s.games, s.created);
  }

  lemma {:induction false} RunAppend(s: State, es: seq<Event>, fs: seq<Event>)
    requires RunOk(s, es + fs)
    ensures RunOk(s, es) && RunOk(Run(s, es), fs) && Run(Run(s, es), fs) == Run(s, es + fs)
    decreases |es|
  {
    hide Next, Enabled;
    if es == [] {
      assert es + fs == fs;
    } else {
      assert (es + fs)[1..] == es[1..] + fs;
      RunAppend(Next(s, es[0]), es[1..], fs);
    }
  }

  /** The session with that serial number is in exactly one game, its only player and game master, under that name. */
  ghost predicate MasterOfOne(games: seq<Game>, serial: nat, name: Text) {
    exists g :: 0 <= g < |games| && games[g].players == map[serial := Player(name, Gm)]
                && forall h :: 0 <= h < |games| && h != g ==> serial !in games[h].players
  }

  lemma CreatorIsMaster(s: State, x: Session)
    requires Good(s) && x in s.sessions && x.mode.CreatingGame?
    ensures exists g :: 0 <= g < |s.games| && s.games[g].players == map[x.serial := Player(x.id, Gm)]
  {
    assert Matched(x, s.games) && HasGame(s.games, x.serial);
    hide Sound, Ordered, DistinctIds, OnlyBackWaits;
    var g :| 0 <= g < |s.games| && x.serial in s.games[g].players;
    assert OneGm(s.games[g], s.created);
    assert s.games[g].players == map[x.serial := Player(x.id, Gm)];
  }

  lemma OnlyOneGame(games: seq<Game>, created: nat, g: nat, serial: nat, name: Text)
    requires SoundGames(games, created) && g < |games| && games[g].players == map[serial := Player(name, Gm)]
    ensures MasterOfOne(games, serial, name)
  {
    assert serial in games[g].players.Keys;
    forall h | 0 <= h < |games| && h != g
      ensures serial !in games[h].players
    {
      assert games[h].players.Keys !! games[g].players.Keys;
    }
  }

  lemma GamesAreSound(s: State)
    requires Good(s)
    ensures SoundGames(s.games, s.created)
  {}

  /**
   * Whoever was creating a game at some time of a run, reaped since or not, is
   * game master of exactly one game, under the name of its login, ever after.
   */
  lemma MasterUnderLogin(es: seq<Event>, fs: seq<Event>, x: Session)
    requires RunOk(Init(), es + fs) && RunOk(Init(), es)
    requires x in Run(Init(), es).sessions && x.mode.CreatingGame?
    ensures MasterOfOne(Run(Init(), es + fs).games, x.serial, x.id)
  {
    hide Good, Run, RunOk, Init, SoundGames, MasterOfOne;
    GoodInit();
    KeepsRun(Init(), es);
    RunAppend(Init(), es, fs);
    var s := Run(Init(), es);
    KeepsRun(s, fs);
    RunHistory(s, fs);
    CreatorIsMaster(s, x);
    var g :| 0 <= g < |s.games| && s.games[g].players == map[x.serial := Player(x.id, Gm)];
    var t := Run(s, fs);
    assert t.games[g] == s.games[g];
    assert SoundGames(t.games, t.created) by {
      GamesAreSound(t);
    }
    OnlyOneGame(t.games, t.created, g, x.serial, x.id);
  }

  // ---- the atomicity of handlers

  /**
   * Names are unique only because handlers run one at a time: when two threads
   * are both past the check before either sets its name, the names stay distinct
   * exactly if they were.
   */
  lemma RacingLogins(s: State, i: nat, j: nat, a: Text, b: Text)
    requires Good(s) && i < j < |s.sessions| && s.sessions[i].mode.Entering? && s.sessions[j].mode.Entering?
    requires User(s, i, a).Done? && User(s, j, b).Done?
    ensures DistinctIds(SetUser(SetUser(s, i, a), j, b).sessions) <==> a != b
  {
    var t := SetUser(SetUser(s, i, a), j, b).sessions;
    EmptyNameIsTaken(s, i);
    assert t[i].id == a && t[j].id == b;
    assert forall k :: 0 <= k < |t| && k != i && k != j ==> t[k].id == s.sessions[k].id != a && t[k].id != b;
  }

  // ---- accepting over time

  predicate Deaf(s: State) {
    forall i :: 0 <= i < |s.sessions| ==> !s.sessions[i].accepting
  }

  /** An accept error is final: nobody is accepted any more, however the run goes on. */
  lemma {:induction false} DeafForever(s: State, es: seq<Event>)
    requires Good(s) && Deaf(s) && RunOk(s, es)
    ensures Deaf(Run(s, es)) && Run(s, es).created == s.created
    decreases |es|
  {
    hide Good;
    if es != [] {
      var e := es[0];
      var t := Next(s, e);
      Keeps(s, e);
      if e.Command? {
        CommandEffect(s, e.i, e.text);
        assert !t.sessions[e.i].accepting;
      } else if e.Reap? {
        SurvivorsMembers(s.sessions);
        forall i | 0 <= i < |t.sessions|
          ensures !t.sessions[i].accepting
        {
          assert t.sessions[i] in s.sessions;
        }
      }
      DeafForever(t, es[1..]);
    }
  }

  lemma DeafAccept(s: State, i: nat, failed: bool)
    requires Enabled(s, Accept(i, failed)) && OnlyBackWaits(s.sessions)
    ensures Deaf(Next(s, Accept(i, failed))) <==> failed
  {
    if !failed {
      assert Next(s, Accept(i, failed)).sessions[|s.sessions|].accepting;
    }
  }

  lemma DeafReap(s: State, b: nat)
    requires Good(s) && b < |s.sessions| && s.sessions[b].accepting
    ensures !Deaf(Next(s, Reap))
  {
    assert Sound(s.sessions[b]);
    assert s.sessions[b] in s.sessions;
    SurvivorsMembers(s.sessions);
    assert s.sessions[b] in Next(s, Reap).sessions;
  }

  /** A step ends the accepting exactly if it is an accept error. */
  lemma DeafStep(s: State, e: Event)
    requires Good(s) && Enabled(s, e) && !Deaf(s)
    ensures Deaf(Next(s, e)) <==> e.Accept? && e.failed
  {
    var b :| 0 <= b < |s.sessions| && s.sessions[b].accepting;
    match e {
      case Accept(i, failed) => DeafAccept(s, i, failed);
      case Reap => DeafReap(s, b);
      case Command(i, text) =>
        hide Good, Next, EffectOf;
        CommandEffect(s, i, text);
        assert Next(s, e).sessions[b].accepting;
      case _ =>
        hide Good;
        assert Next(s, e).sessions[b].accepting;
    }
  }

  lemma {:induction false} DeafRun(s: State, es: seq<Event>)
    requires Good(s) && !Deaf(s) && RunOk(s, es)
    ensures Deaf(Run(s, es)) <==> exists k :: 0 <= k < |es| && es[k].Accept? && es[k].failed
    decreases |es|
  {
    hide Good, Next, Enabled, Deaf;
    if es != [] {
      var t := Next(s, es[0]);
      Keeps(s, es[0]);
      DeafStep(s, es[0]);
      assert forall k :: 0 < k < |es| ==> es[k] == es[1..][k - 1];
      if Deaf(t) {
        DeafForever(t, es[1..]);
      } else {
        DeafRun(t, es[1..]);
      }
    }
  }

  /** The server stops accepting if and only if an accept failed: nothing else makes it, and nothing undoes it. */
  lemma DeafIffAcceptFailed(es: seq<Event>)
    requires RunOk(Init(), es)
    ensures Deaf(Run(Init(), es)) <==> exists k :: 0 <= k < |es| && es[k].Accept? && es[k].failed
  {
    GoodInit();
    assert Init().sessions[0].accepting;
    DeafRun(Init(), es);
  }

  /** From any sound state on: after an accept error nobody is accepted, however the run goes on. */
  lemma AcceptErrorIsFinal(s: State, i: nat, es: seq<Event>)
    requires Good(s) && RunOk(s, [Accept(i, true)] + es)
    ensures var t := Run(s, [Accept(i, true)] + es); Deaf(t) && t.created == s.created
  {
    var all := [Accept(i, true)] + es;
    assert all[1..] == es;
    assert OnlyBackWaits(s.sessions);
    hide Good;
    Keeps(s, all[0]);
    DeafAccept(s, i, true);
    DeafForever(Next(s, all[0]), es);
  }
}
