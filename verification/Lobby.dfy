/**
 * The server: sessions, their login and mode, and the games they create. The
 * functions say what each handler does; one event is one handler, run to its end.
 */
module Lobby {
  import opened Bytes
  import opened Lines

  datatype Status = WaitForConnection | Connected | Disconnected | Reapable

  datatype Mode = Entering | InLobby | CreatingGame

  /** Whose receive handler a session has. */
  datatype Handler = OfLobby | OfGame

  datatype Session = Session(
    serial: nat,          // stands for the object's identity: how many sessions were created before it
    status: Status,
    mode: Mode,
    id: Text,
    handler: Handler,
    accepting: bool,      // an asynchronous accept is pending on its socket
    receiving: bool,      // its receiver is armed
    unsent: nat,          // actions whose send handler has not run yet
    sent: seq<Text>,      // actions passed to the socket
    commands: seq<Text>   // non-empty commands received
  )

  datatype Role = Gm | Participant

  datatype Player = Player(name: Text, role: Role)

  datatype Game = Game(id: Text, players: map<nat, Player>)

  datatype State = State(sessions: seq<Session>, games: seq<Game>, created: nat)

  /** A handler that ran to its end, or left by an exception. */
  datatype Outcome = Done(state: State) | Threw(state: State)

  // ---- texts

  const GREETING := Ascii("Zard\n1")
  const OK := Ascii("OK\n")
  const HELP := Ascii("OK\nNo help available.\n")
  const GAME_HELP := Ascii("OK\nStill no help available.\n")
  const UNKNOWN := Ascii("EINVAL\nUnknown command.\n")
  const ERROR := Ascii("ERROR\n")
  const CMD_HELP := Ascii("help")
  const CMD_USER := Ascii("user ")
  const CMD_CREATE := Ascii("game create ")
  const CMD_LIST := Ascii("game list")
  const CREATED_FRONT := Ascii("OK\nCreated game '")
  const CREATED_BACK := Ascii("'.\n")

  function Created(id: Text): Text {
    CREATED_FRONT + id + CREATED_BACK
  }

  function Ids(games: seq<Game>): (r: seq<Text>)
    ensures |r| == |games| && forall g :: 0 <= g < |games| ==> r[g] == games[g].id
  {
    seq(|games|, i requires 0 <= i < |games| => games[i].id)
  }

  function ListReply(games: seq<Game>): Text {
    OK + JoinLines(Ids(games))
  }

  // ---- the code

  function NewSession(serial: nat): Session {
    Session(serial, WaitForConnection, Entering, [], OfLobby, false, false, 0, [], [])
  }

  function Put(s: State, i: nat, x: Session): State
    requires i < |s.sessions|
  {
    s.(sessions := s.sessions[i := x])
  }

  function Sent(x: Session, text: Text): Session {
    x.(sent := x.sent + [text], unsent := x.unsent + 1)
  }

  function Send(s: State, i: nat, text: Text): State
    requires i < |s.sessions|
  {
    Put(s, i, Sent(s.sessions[i], text))
  }

  function CreateSession(s: State): State {
    s.(sessions := s.sessions + [NewSession(s.created)], created := s.created + 1)
  }

  function Listen(s: State): State
    requires s.sessions != []
  {
    var b := |s.sessions| - 1;
    Put(s, b, s.sessions[b].(accepting := true))
  }

  function AcceptHandler(s: State, failed: bool): State
    requires s.sessions != []
  {
    if failed then Listen(s)
    else
      var b := |s.sessions| - 1;
      Listen(CreateSession(Put(s, b, Sent(s.sessions[b].(status := Connected), GREETING).(receiving := true))))
  }

  /** `session_accept_handler`: an error stops here, it never reaches the lobby. */
  function SessionAccepted(s: State, i: nat, failed: bool): State
    requires i < |s.sessions|
  {
    var t := Put(s, i, s.sessions[i].(accepting := false));
    if failed then Put(t, i, t.sessions[i].(status := Reapable)) else AcceptHandler(t, failed)
  }

  predicate UserExists(s: State, id: Text) {
    exists j :: 0 <= j < |s.sessions| && s.sessions[j].id == id
  }

  /** The second half of `tlobby::user`, once no session was seen to have the name. */
  function SetUser(s: State, i: nat, id: Text): State
    requires i < |s.sessions|
  {
    Put(s, i, Sent(s.sessions[i].(id := id, mode := InLobby), OK))
  }

  function User(s: State, i: nat, id: Text): Outcome
    requires i < |s.sessions|
  {
    if UserExists(s, id) then Threw(s) else Done(SetUser(s, i, id))
  }

  predicate GameExists(s: State, id: Text) {
    exists g :: 0 <= g < |s.games| && s.games[g].id == id
  }

  /** The constructor of `tgame`, and the lobby keeping the game. */
  function GameCreate(s: State, i: nat, id: Text): Outcome
    requires i < |s.sessions|
  {
    if GameExists(s, id) then Threw(s)
    else
      var x := s.sessions[i];
      var t := Put(s, i, Sent(x.(mode := CreatingGame), Created(id)).(handler := OfGame));
      Done(t.(games := s.games + [Game(id, map[x.serial := Player(x.id, Gm)])]))
  }

  function Catch(r: Outcome, i: nat): State
    requires i < |r.state.sessions|
  {
    if r.Threw? then Send(r.state, i, ERROR) else r.state
  }

  function ExecuteConnected(s: State, i: nat, command: Text): State
    requires i < |s.sessions|
  {
    if command == [] then s
    else if command == CMD_HELP then Send(s, i, HELP)
    else if CMD_USER <= command then Catch(User(s, i, command[|CMD_USER|..]), i)
    else Send(s, i, UNKNOWN)
  }

  function ExecuteLobby(s: State, i: nat, command: Text): State
    requires i < |s.sessions|
  {
    if command == [] then s
    else if command == CMD_HELP then Send(s, i, HELP)
    else if CMD_CREATE <= command then Catch(GameCreate(s, i, command[|CMD_CREATE|..]), i)
    else if command == CMD_LIST then Send(s, i, ListReply(s.games))
    else Send(s, i, UNKNOWN)
  }

  function ExecuteCreatingGame(s: State, i: nat, command: Text): State
    requires i < |s.sessions|
  {
    if command == [] then s
    else if command == CMD_HELP then Send(s, i, GAME_HELP)
    else Send(s, i, UNKNOWN)
  }

  /** `tlobby::receive_handler` on a message. */
  function LobbyReceives(s: State, i: nat, command: Text): Outcome
    requires i < |s.sessions|
  {
    match s.sessions[i].mode
    case Entering => Done(ExecuteConnected(s, i, command))
    case InLobby => Done(ExecuteLobby(s, i, command))
    case CreatingGame => Done(s)
  }

  /** `tgame::receive_handler` on a message. */
  function GameReceives(s: State, i: nat, command: Text): Outcome
    requires i < |s.sessions|
  {
    match s.sessions[i].mode
    case CreatingGame => Done(ExecuteCreatingGame(s, i, command))
    case _ => Threw(s)
  }

  function Noted(s: State, i: nat, command: Text): State
    requires i < |s.sessions|
  {
    if command == [] then s else Put(s, i, s.sessions[i].(commands := s.sessions[i].commands + [command]))
  }

  /** The receive handler that the session has; when it throws the receiver does not re-arm. */
  function HandlerRuns(s: State, i: nat, command: Text): State
    requires i < |s.sessions|
  {
    var r := if s.sessions[i].handler.OfLobby? then LobbyReceives(s, i, command) else GameReceives(s, i, command);
    if r.Threw? then Put(s, i, s.sessions[i].(receiving := false)) else r.state
  }

  function SessionReceives(s: State, i: nat, command: Text): State
    requires i < |s.sessions|
  {
    HandlerRuns(Noted(s, i, command), i, command)
  }

  function SessionReadFails(s: State, i: nat): State
    requires i < |s.sessions|
  {
    Put(s, i, s.sessions[i].(status := Disconnected, receiving := false))
  }

  function SessionWritten(s: State, i: nat, failed: bool): State
    requires i < |s.sessions| && s.sessions[i].unsent > 0
  {
    var x := s.sessions[i].(unsent := s.sessions[i].unsent - 1);
    Put(s, i, if failed then x.(status := Reapable) else x)
  }

  /** The order-preserving filter that `tsession_reaper::reap` computes in place. */
  function Survivors(sessions: seq<Session>): seq<Session> {
    if sessions == [] then []
    else (if sessions[0].status.Reapable? then [] else [sessions[0]]) + Survivors(sessions[1..])
  }

  // ---- events

  datatype Event =
    | Accept(i: nat, failed: bool)
    | Command(i: nat, text: Text)
    | ReadFails(i: nat)
    | Written(i: nat, failed: bool)
    | Reap

  function Init(): State {
    Listen(CreateSession(State([], [], 0)))
  }

  predicate Enabled(s: State, e: Event) {
    match e
    case Accept(i, _) => i < |s.sessions| && s.sessions[i].accepting
    case Command(i, _) => i < |s.sessions| && s.sessions[i].receiving
    case ReadFails(i) => i < |s.sessions| && s.sessions[i].receiving
    case Written(i, _) => i < |s.sessions| && s.sessions[i].unsent > 0
    case Reap => true
  }

  function Next(s: State, e: Event): State
    requires Enabled(s, e)
  {
    match e
    case Accept(i, failed) => SessionAccepted(s, i, failed)
    case Command(i, text) => SessionReceives(s, i, text)
    case ReadFails(i) => SessionReadFails(s, i)
    case Written(i, failed) => SessionWritten(s, i, failed)
    case Reap => s.(sessions := Survivors(s.sessions))
  }

  predicate RunOk(s: State, es: seq<Event>)
    decreases |es|
  {
    es == [] || (Enabled(s, es[0]) && RunOk(Next(s, es[0]), es[1..]))
  }

  function Run(s: State, es: seq<Event>): State
    requires RunOk(s, es)
    decreases |es|
  {
    if es == [] then s else Run(Next(s, es[0]), es[1..])
  }
}
