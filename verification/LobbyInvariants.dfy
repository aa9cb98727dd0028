/** What every step of the server keeps, and what follows for all its runs. */
module LobbyInvariants {
  import opened Bytes
  import opened Lines
  import opened Lobby

  // ---- what holds of every session by itself

  /** Which replies can answer a command, whatever the mode. */
  predicate Answers(command: Text, reply: Text) {
    if command == CMD_HELP then reply == HELP || reply == GAME_HELP
    else
      || reply == UNKNOWN
      || (CMD_USER <= command && (reply == OK || reply == ERROR))
      || (CMD_CREATE <= command && (reply == Created(command[|CMD_CREATE|..]) || reply == ERROR))
      || (command == CMD_LIST && OK <= reply)
  }

  /** One greeting, then one reply for each non-empty command, in the order of the commands. */
  predicate Replied(x: Session) {
    && |x.sent| == 1 + |x.commands|
    && x.sent[0] == GREETING
    && forall k :: 0 <= k < |x.commands| ==> x.commands[k] != [] && Answers(x.commands[k], x.sent[k + 1])
  }

  predicate Sound(x: Session) {
    && (x.id == [] <==> x.mode.Entering?)
    && (x.handler.OfGame? <==> x.mode.CreatingGame?)
    && (x.accepting <==> x.status.WaitForConnection?)
    && (x.accepting ==> x == NewSession(x.serial).(accepting := true))
    && (x.status.Connected? ==> x.receiving)
    && (x.accepting || (x.status.Reapable? && x == NewSession(x.serial).(status := Reapable)) || Replied(x))
  }

  // ---- what holds of them together

  predicate Ordered(ss: seq<Session>, created: nat) {
    && (forall i :: 0 <= i < |ss| ==> ss[i].serial < created)
    && (forall i, j :: 0 <= i < j < |ss| ==> ss[i].serial < ss[j].serial)
  }

  predicate DistinctIds(ss: seq<Session>) {
    forall i, j :: 0 <= i < j < |ss| && ss[i].id == ss[j].id ==> ss[i].id == []
  }

  /** At most one session waits for a connection, and it is the last one. */
  predicate OnlyBackWaits(ss: seq<Session>) {
    forall i :: 0 <= i < |ss| - 1 ==> !ss[i].accepting
  }

  /** A game has exactly its creator, as game master. */
  predicate OneGm(g: Game, created: nat) {
    exists n :: n in g.players && n < created && g.players.Keys == {n} && g.players[n].role.Gm?
  }

  predicate SoundGames(games: seq<Game>, created: nat) {
    && (forall g :: 0 <= g < |games| ==> OneGm(games[g], created))
    && (forall g, h :: 0 <= g < h < |games| ==> games[g].id != games[h].id)
    && (forall g, h :: 0 <= g < h < |games| ==> games[g].players.Keys !! games[h].players.Keys)
  }

  predicate HasGame(games: seq<Game>, serial: nat) {
    exists g :: 0 <= g < |games| && serial in games[g].players
  }

  /** The sessions creating a game are those that are in one, under their login. */
  predicate Matched(x: Session, games: seq<Game>) {
    && (x.mode.CreatingGame? <==> HasGame(games, x.serial))
    && (forall g :: 0 <= g < |games| && x.serial in games[g].players ==> games[g].players[x.serial].name == x.id)
  }

  predicate Good(s: State) {
    && (forall i :: 0 <= i < |s.sessions| ==> Sound(s.sessions[i]) && Matched(s.sessions[i], s.games))
    && Ordered(s.sessions, s.created)
    && DistinctIds(s.sessions)
    && OnlyBackWaits(s.sessions)
    && SoundGames(s.games, s.created)
  }

  lemma GoodInit()
    ensures Good(Init())
  {}

  // ---- the shapes of a step

  /** A session changes, but neither its login nor its mode. */
  lemma PutKeeps(s: State, i: nat, x: Session)
    requires Good(s) && i < |s.sessions|
    requires var y := s.sessions[i];
             x.serial == y.serial && x.id == y.id && x.mode == y.mode && (x.accepting ==> y.accepting)
    requires Sound(x)
    ensures Good(Put(s, i, x))
  {
    hide Sound;
    assert Sound(s.sessions[i]);
    assert x.accepting ==> s.sessions[i].accepting;
  }

  lemma LoginKeeps(s: State, i: nat, x: Session)
    requires Good(s) && i < |s.sessions|
    requires var y := s.sessions[i]; x.serial == y.serial && y.mode.Entering? && x.mode.InLobby? && !x.accepting
    requires Sound(x) && !UserExists(s, x.id)
    ensures Good(Put(s, i, x))
  {}

  /** The empty name is always taken: by the very session that asks for it. */
  lemma EmptyNameIsTaken(s: State, i: nat)
    requires Good(s) && i < |s.sessions| && s.sessions[i].mode.Entering?
    ensures UserExists(s, [])
  {}

  lemma MatchedGrows(y: Session, games: seq<Game>, g: Game)
    requires Matched(y, games) && y.serial !in g.players
    ensures Matched(y, games + [g])
  {
    var all := games + [g];
    if HasGame(games, y.serial) {
      var h :| 0 <= h < |games| && y.serial in games[h].players;
      assert y.serial in all[h].players;
    }
    if HasGame(all, y.serial) {
      var h :| 0 <= h < |all| && y.serial in all[h].players;
      assert h < |games| && y.serial in games[h].players;
    }
  }

  lemma GameKeeps(s: State, i: nat, x: Session, id: Text)
    requires Good(s) && i < |s.sessions|
    requires var y := s.sessions[i];
             x.serial == y.serial && x.id == y.id && y.mode.InLobby? && x.mode.CreatingGame? && !x.accepting
    requires Sound(x) && !GameExists(s, id)
    ensures Good(Put(s, i, x).(games := s.games + [Game(id, map[x.serial := Player(x.id, Gm)])]))
  {
    hide Sound;
    var g := Game(id, map[x.serial := Player(x.id, Gm)]);
    var games := s.games + [g];
    assert games[|s.games|] == g;
    assert !HasGame(s.games, x.serial);
    forall h | 0 <= h < |s.games|
      ensures games[h].players.Keys !! g.players.Keys
    {
      assert x.serial !in s.games[h].players;
    }
    assert OneGm(g, s.created) by {
      assert x.serial in g.players && g.players.Keys == {x.serial};
    }
    forall j | 0 <= j < |s.sessions|
      ensures Matched(Put(s, i, x).sessions[j], games)
    {
      var y := s.sessions[j];
      if j == i {
        assert HasGame(games, x.serial);
      } else {
        assert y.serial != x.serial;
        MatchedGrows(y, s.games, g);
      }
    }
  }

  lemma SoundNew(serial: nat)
    ensures Sound(NewSession(serial).(accepting := true))
  {}

  lemma NewSessionKeeps(s: State)
    requires Good(s) && forall i :: 0 <= i < |s.sessions| ==> !s.sessions[i].accepting
    ensures Good(Listen(CreateSession(s)))
  {
    hide Sound;
    var x := NewSession(s.created).(accepting := true);
    assert Listen(CreateSession(s)).sessions == s.sessions + [x];
    assert Sound(x) by { assert x.id == [] && x.mode.Entering?; SoundNew(s.created); }
    forall g | 0 <= g < |s.games|
      ensures OneGm(s.games[g], s.created + 1)
    {
      var players := s.games[g].players;
      var n :| n in players && n < s.created && players.Keys == {n} && players[n].role.Gm?;
      assert n < s.created + 1;
    }
  }

  lemma {:induction false} SurvivorsMembers(ss: seq<Session>)
    ensures forall x :: x in Survivors(ss) <==> x in ss && !x.status.Reapable?
  {
    if ss != [] {
      SurvivorsMembers(ss[1..]);
      assert ss == [ss[0]] + ss[1..];
    }
  }

  lemma OrderedTail(ss: seq<Session>, created: nat)
    requires Ordered(ss, created) && ss != []
    ensures Ordered(ss[1..], created)
    ensures forall y :: y in ss[1..] ==> ss[0].serial < y.serial
  {}

  lemma OrderedCons(x: Session, rest: seq<Session>, created: nat)
    requires Ordered(rest, created) && x.serial < created
    requires forall y :: y in rest ==> x.serial < y.serial
    ensures Ordered([x] + rest, created)
  {}

  lemma {:induction false} SurvivorsOrdered(ss: seq<Session>, created: nat)
    requires Ordered(ss, created)
    ensures Ordered(Survivors(ss), created)
  {
    if ss != [] {
      OrderedTail(ss, created);
      assert ss[0].serial < created;
      hide Ordered;
      SurvivorsOrdered(ss[1..], created);
      SurvivorsMembers(ss[1..]);
      OrderedCons(ss[0], Survivors(ss[1..]), created);
      assert [] + Survivors(ss[1..]) == Survivors(ss[1..]);
    } else {
      assert Survivors(ss) == ss;
    }
  }

  lemma {:induction false} SurvivorsDistinct(ss: seq<Session>)
    requires DistinctIds(ss)
    ensures DistinctIds(Survivors(ss))
  {
    if ss != [] {
      SurvivorsDistinct(ss[1..]);
      SurvivorsMembers(ss[1..]);
      var rest := Survivors(ss[1..]);
      forall j | 0 <= j < |rest| && rest[j].id == ss[0].id
        ensures ss[0].id == []
      {
        assert rest[j] in ss[1..];
      }
    }
  }

  lemma BackTail(ss: seq<Session>)
    requires OnlyBackWaits(ss) && |ss| > 1
    ensures OnlyBackWaits(ss[1..]) && !ss[0].accepting && ss[1..][|ss[1..]| - 1] == ss[|ss| - 1]
  {}

  lemma BackCons(x: Session, rest: seq<Session>)
    requires OnlyBackWaits(rest) && !x.accepting
    ensures OnlyBackWaits([x] + rest)
  {}

  /** Reaping never removes the session that waits for a connection, and keeps it last. */
  lemma {:induction false} SurvivorsBack(ss: seq<Session>)
    requires OnlyBackWaits(ss) && forall x :: x in ss && x.accepting ==> x.status.WaitForConnection?
    ensures OnlyBackWaits(Survivors(ss))
    ensures ss != [] && ss[|ss| - 1].accepting ==> var r := Survivors(ss); r != [] && r[|r| - 1] == ss[|ss| - 1]
  {
    if |ss| == 1 {
      assert Survivors(ss[1..]) == [];
    } else if ss != [] {
      BackTail(ss);
      hide OnlyBackWaits;
      SurvivorsBack(ss[1..]);
      BackCons(ss[0], Survivors(ss[1..]));
      assert [] + Survivors(ss[1..]) == Survivors(ss[1..]);
    }
  }

  lemma ReapKeeps(s: State)
    requires Good(s)
    ensures Good(Next(s, Reap))
  {
    hide Matched;
    var r := Survivors(s.sessions);
    SurvivorsMembers(s.sessions);
    SurvivorsOrdered(s.sessions, s.created);
    SurvivorsDistinct(s.sessions);
    assert forall x :: x in s.sessions ==> Sound(x);
    SurvivorsBack(s.sessions);
    forall i | 0 <= i < |r|
      ensures Sound(r[i]) && Matched(r[i], s.games)
    {
      assert r[i] in s.sessions;
    }
  }

  lemma AcceptKeeps(s: State, i: nat, failed: bool)
    requires Good(s) && Enabled(s, Accept(i, failed))
    ensures Good(Next(s, Accept(i, failed)))
  {
    var x := s.sessions[i];
    assert i == |s.sessions| - 1;
    if failed {
      var y := x.(accepting := false, status := Reapable);
      PutKeeps(s, i, y);
      assert Next(s, Accept(i, failed)) == Put(s, i, y);
    } else {
      var y := Sent(x.(accepting := false, status := Connected), GREETING).(receiving := true);
      PutKeeps(s, i, y);
      NewSessionKeeps(Put(s, i, y));
      assert Next(s, Accept(i, failed)) == Listen(CreateSession(Put(s, i, y)));
    }
  }

  /** The session that runs a command, after it answered with `reply`. */
  function AfterReply(x: Session, command: Text, reply: Text): Session {
    Sent(x.(commands := x.commands + [command]), reply)
  }

  lemma ReplySound(x: Session, command: Text, reply: Text)
    requires Sound(x) && x.receiving && command != [] && Answers(command, reply)
    ensures Sound(AfterReply(x, command, reply))
  {}

  /** Which of the shapes above a command takes, and with which reply. */
  datatype Effect = Says(reply: Text) | LogsIn(id: Text) | Creates(id: Text)

  function EffectOf(s: State, i: nat, command: Text): Effect
    requires i < |s.sessions|
  {
    match s.sessions[i].mode
    case Entering =>
      if command == CMD_HELP then Says(HELP)
      else if CMD_USER <= command then
        if UserExists(s, command[|CMD_USER|..]) then Says(ERROR) else LogsIn(command[|CMD_USER|..])
      else Says(UNKNOWN)
    case InLobby =>
      if command == CMD_HELP then Says(HELP)
      else if CMD_CREATE <= command then
        if GameExists(s, command[|CMD_CREATE|..]) then Says(ERROR) else Creates(command[|CMD_CREATE|..])
      else if command == CMD_LIST then Says(ListReply(s.games))
      else Says(UNKNOWN)
    case CreatingGame =>
      if command == CMD_HELP then Says(GAME_HELP) else Says(UNKNOWN)
  }

  function ReplyOf(e: Effect): Text {
    match e
    case Says(reply) => reply
    case LogsIn(_) => OK
    case Creates(id) => Created(id)
  }

  /** The session after a command that had effect `e`. */
  function Affected(x: Session, command: Text, e: Effect): Session {
    var y := AfterReply(x, command, ReplyOf(e));
    match e
    case Says(_) => y
    case LogsIn(id) => y.(id := id, mode := InLobby)
    case Creates(_) => y.(mode := CreatingGame, handler := OfGame)
  }

  lemma EffectAnswers(s: State, i: nat, command: Text)
    requires i < |s.sessions|
    ensures Answers(command, ReplyOf(EffectOf(s, i, command)))
  {}

  /** The state after a command with effect `e`. */
  function AfterEffect(s: State, i: nat, command: Text, e: Effect): State
    requires i < |s.sessions|
  {
    var x := s.sessions[i];
    var t := Put(s, i, Affected(x, command, e));
    if e.Creates? then t.(games := s.games + [Game(e.id, map[x.serial := Player(x.id, Gm)])]) else t
  }

  lemma NotedIsInvisible(s: State, i: nat, x: Session)
    requires i < |s.sessions| && x.id == s.sessions[i].id
    ensures forall id :: UserExists(Put(s, i, x), id) <==> UserExists(s, id)
    ensures forall y :: Put(Put(s, i, x), i, y) == Put(s, i, y)
  {
    var t := Put(s, i, x);
    assert forall j :: 0 <= j < |s.sessions| ==> t.sessions[j].id == s.sessions[j].id;
    forall id
      ensures UserExists(t, id) <==> UserExists(s, id)
    {
      if j :| 0 <= j < |s.sessions| && s.sessions[j].id == id {
        assert t.sessions[j].id == id;
      }
    }
  }

  lemma ConnectedEffect(s: State, t: State, i: nat, x: Session, command: Text)
    requires i < |s.sessions| && x == s.sessions[i] && x.mode.Entering? && command != []
    requires t == Put(s, i, x.(commands := x.commands + [command]))
    ensures ExecuteConnected(t, i, command) == AfterEffect(s, i, command, EffectOf(s, i, command))
  {
    hide Ascii;
    NotedIsInvisible(s, i, t.sessions[i]);
  }

  lemma LobbyEffect(s: State, t: State, i: nat, x: Session, command: Text)
    requires i < |s.sessions| && x == s.sessions[i] && x.mode.InLobby? && command != []
    requires t == Put(s, i, x.(commands := x.commands + [command]))
    ensures ExecuteLobby(t, i, command) == AfterEffect(s, i, command, EffectOf(s, i, command))
  {}

  lemma CreatingEffect(s: State, t: State, i: nat, x: Session, command: Text)
    requires i < |s.sessions| && x == s.sessions[i] && x.mode.CreatingGame? && command != []
    requires t == Put(s, i, x.(commands := x.commands + [command]))
    ensures ExecuteCreatingGame(t, i, command) == AfterEffect(s, i, command, EffectOf(s, i, command))
  {}

  /** Every command of a sound server, in whatever mode, comes down to its effect. */
  lemma CommandEffect(s: State, i: nat, command: Text)
    requires Good(s) && Enabled(s, Command(i, command))
    ensures Next(s, Command(i, command)) ==
            if command == [] then s else AfterEffect(s, i, command, EffectOf(s, i, command))
  {
    var x := s.sessions[i];
    assert Sound(x);
    hide Good, Sound, ExecuteConnected, ExecuteLobby, Ascii, UserExists, EffectOf;
    if command != [] {
      var t := Put(s, i, x.(commands := x.commands + [command]));
      match x.mode {
        case Entering => ConnectedEffect(s, t, i, x, command);
        case InLobby => LobbyEffect(s, t, i, x, command);
        case CreatingGame => CreatingEffect(s, t, i, x, command);
      }
    }
  }

  lemma CommandKeeps(s: State, i: nat, command: Text)
    requires Good(s) && Enabled(s, Command(i, command))
    ensures Good(Next(s, Command(i, command)))
  {
    hide Answers, Next;
    CommandEffect(s, i, command);
    if command != [] {
      var x, e := s.sessions[i], EffectOf(s, i, command);
      var y := Affected(x, command, e);
      EffectAnswers(s, i, command);
      ReplySound(x, command, ReplyOf(e));
      match e {
        case Says(_) => PutKeeps(s, i, y); assert s.games + [] == s.games;
        case LogsIn(_) => EmptyNameIsTaken(s, i); LoginKeeps(s, i, y); assert s.games + [] == s.games;
        case Creates(id) => GameKeeps(s, i, y, id);
      }
    }
  }

  lemma ReadFailsKeeps(s: State, i: nat)
    requires Good(s) && Enabled(s, ReadFails(i))
    ensures Good(Next(s, ReadFails(i)))
  {}

  lemma WrittenKeeps(s: State, i: nat, failed: bool)
    requires Good(s) && Enabled(s, Written(i, failed))
    ensures Good(Next(s, Written(i, failed)))
  {}

  lemma Keeps(s: State, e: Event)
    requires Good(s) && Enabled(s, e)
    ensures Good(Next(s, e))
  {
    hide Good, Next;
    match e {
      case Accept(i, failed) => AcceptKeeps(s, i, failed);
      case Command(i, text) => CommandKeeps(s, i, text);
      case ReadFails(i) => ReadFailsKeeps(s, i);
      case Written(i, failed) => WrittenKeeps(s, i, failed);
      case Reap => ReapKeeps(s);
    }
  }

  lemma {:induction false} KeepsRun(s: State, es: seq<Event>)
    requires Good(s) && RunOk(s, es)
    ensures Good(Run(s, es))
    decreases |es|
  {
    hide Good, Next, Enabled;
    if es != [] {
      Keeps(s, es[0]);
      KeepsRun(Next(s, es[0]), es[1..]);
    }
  }
}
