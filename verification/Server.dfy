/** `tsession`, `tgame` and `tlobby` as objects: they update in place what the functions of `Lobby` describe. */
module Server {
  import opened Messages
  import opened Lines
  import L = Lobby

  class Session {
    const serial: nat
    var status: L.Status
    var mode: L.Mode
    var id: Text
    var receiveHandler: L.Handler
    var accepting: bool
    var receiving: bool
    var unsent: nat
    ghost var sent: seq<Text>
    ghost var commands: seq<Text>

    ghost function View(): L.Session
      reads this
    {
      L.Session(serial, status, mode, id, receiveHandler, accepting, receiving, unsent, sent, commands)
    }

    constructor (serial: nat)
      ensures View() == L.NewSession(serial)
    {
      this.serial := serial;
      status, mode, id, receiveHandler := L.WaitForConnection, L.Entering, [], L.OfLobby;
      accepting, receiving, unsent := false, false, 0;
      sent, commands := [], [];
    }

    method Accept()
      modifies this
      ensures View() == old(View()).(accepting := true)
    {
      accepting := true;
    }

    method Send(data: Text)
      modifies this
      ensures View() == L.Sent(old(View()), data)
    {
      unsent := unsent + 1;
      sent := sent + [data];
    }

    method Receive()
      modifies this
      ensures View() == old(View()).(receiving := true)
    {
      receiving := true;
    }
  }

  class Game {
    const id: Text
    const players: map<nat, L.Player>

    function View(): L.Game {
      L.Game(id, players)
    }

    /** The creator becomes game master and its messages go to the game from now on. */
    constructor (session: Session, id: Text)
      modifies session
      ensures View() == L.Game(id, map[session.serial := L.Player(old(session.id), L.Gm)])
      ensures session.View() ==
              L.Sent(old(session.View()).(mode := L.CreatingGame), L.Created(id)).(handler := L.OfGame)
    {
      this.id := id;
      players := map[session.serial := L.Player(session.id, L.Gm)];
      new;
      session.mode := L.CreatingGame;
      session.Send(L.CREATED_FRONT + id + L.CREATED_BACK);
      session.receiveHandler := L.OfGame;
    }
  }

  ghost function Views(sessions: seq<Session>): (r: seq<L.Session>)
    reads sessions
    ensures |r| == |sessions| && forall i :: 0 <= i < |r| ==> r[i] == sessions[i].View()
  {
    if sessions == [] then [] else Views(sessions[..|sessions| - 1]) + [sessions[|sessions| - 1].View()]
  }

  function GameViews(games: seq<Game>): (r: seq<L.Game>)
    ensures |r| == |games| && forall i :: 0 <= i < |r| ==> r[i] == games[i].View()
  {
    seq(|games|, i requires 0 <= i < |games| => games[i].View())
  }

  /** The list once the reaper is done, if it has come to `k` in `v`. */
  ghost function Reaped(v: seq<L.Session>, k: nat): seq<L.Session>
    requires k <= |v|
  {
    v[..k] + L.Survivors(v[k..])
  }

  lemma ReapErases(v: seq<L.Session>, k: nat)
    requires k < |v| && v[k].status.Reapable?
    ensures Reaped(v[..k] + v[k + 1..], k) == Reaped(v, k)
  {}

  lemma ReapSkips(v: seq<L.Session>, k: nat)
    requires k < |v| && !v[k].status.Reapable?
    ensures Reaped(v, k + 1) == Reaped(v, k)
  {}

  lemma ReapEnds(v: seq<L.Session>)
    ensures Reaped(v, 0) == L.Survivors(v) && Reaped(v, |v|) == v
  {}

  class Lobby {
    var sessions: seq<Session>
    var games: seq<Game>
    var created: nat

    ghost predicate Valid()
      reads this
    {
      forall i, j :: 0 <= i < j < |sessions| ==> sessions[i] != sessions[j]
    }

    ghost function View(): L.State
      reads this, sessions
    {
      L.State(Views(sessions), GameViews(games), created)
    }

    constructor ()
      ensures Valid() && fresh(sessions) && View() == L.Init()
    {
      sessions, games, created := [], [], 0;
      new;
      var session := CreateSession();
      Listen();
    }

    /** Sending on one session of the list. */
    method Send(i: nat, data: Text)
      requires Valid() && i < |sessions|
      modifies sessions
      ensures View() == L.Send(old(View()), i, data)
    {
      sessions[i].Send(data);
    }

    method CreateSession() returns (session: Session)
      requires Valid()
      modifies this
      ensures Valid() && View() == L.CreateSession(old(View()))
      ensures fresh(session) && sessions == old(sessions) + [session]
    {
      session := new Session(created);
      sessions := sessions + [session];
      created := created + 1;
      assert sessions[..|sessions| - 1] == old(sessions);
    }

    method Listen()
      requires Valid() && sessions != []
      modifies sessions
      ensures View() == L.Listen(old(View()))
    {
      sessions[|sessions| - 1].Accept();
    }

    method AcceptHandler(failed: bool)
      requires Valid() && sessions != []
      modifies this, sessions
      ensures Valid() && forall s :: s in sessions ==> s in old(sessions) || fresh(s)
      ensures View() == L.AcceptHandler(old(View()), failed)
    {
      hide L.Listen, L.Sent;
      if !failed {
        Welcome();
        var session := CreateSession();
      }
      Listen();
    }

    /** What the lobby does with the session that has just been connected, the last one. */
    method Welcome()
      requires Valid() && sessions != []
      modifies sessions
      ensures var b := |sessions| - 1; var v := old(View());
              View() == L.Put(v, b, L.Sent(v.sessions[b].(status := L.Connected), L.GREETING).(receiving := true))
    {
      var session := sessions[|sessions| - 1];
      session.status := L.Connected;
      session.Send(L.GREETING);
      session.Receive();
    }

    method SessionAcceptHandler(i: nat, failed: bool)
      requires Valid() && i < |sessions|
      modifies this, sessions
      ensures Valid() && forall s :: s in sessions ==> s in old(sessions) || fresh(s)
      ensures View() == L.SessionAccepted(old(View()), i, failed)
    {
      hide L.AcceptHandler;
      sessions[i].accepting := false;
      assert View() == L.Put(old(View()), i, sessions[i].View());
      if failed {
        sessions[i].status := L.Reapable;
        return;
      }
      AcceptHandler(failed);
    }

    method User(i: nat, id: Text) returns (threw: bool)
      requires Valid() && i < |sessions|
      modifies sessions
      ensures (if threw then L.Threw(View()) else L.Done(View())) == L.User(old(View()), i, id)
    {
      for k := 0 to |sessions|
        invariant forall j :: 0 <= j < k ==> sessions[j].id != id
        invariant View() == old(View())
      {
        if sessions[k].id == id {
          assert View().sessions[k].id == id;
          return true;
        }
      }
      var session := sessions[i];
      session.id := id;
      session.mode := L.InLobby;
      session.Send(L.OK);
      return false;
    }

    method GameCreate(i: nat, id: Text) returns (threw: bool)
      requires Valid() && i < |sessions|
      modifies this`games, sessions
      ensures (if threw then L.Threw(View()) else L.Done(View())) == L.GameCreate(old(View()), i, id)
    {
      for k := 0 to |games|
        invariant forall j :: 0 <= j < k ==> games[j].id != id
        invariant View() == old(View()) && games == old(games)
      {
        if games[k].id == id {
          assert View().games[k].id == id;
          return true;
        }
      }
      var game := new Game(sessions[i], id);
      games := games + [game];
      return false;
    }

    /** The ids of the games, in the order of their creation. */
    method GameIds() returns (result: seq<Text>)
      ensures result == L.Ids(View().games)
      ensures |result| == |games| && forall g :: 0 <= g < |games| ==> result[g] == games[g].id
    {
      result := [];
      for k := 0 to |games|
        invariant result == L.Ids(View().games)[..k]
      {
        result := result + [games[k].id];
      }
    }

    method GameList(i: nat)
      requires Valid() && i < |sessions|
      modifies sessions
      ensures View() == L.Send(old(View()), i, L.ListReply(old(View()).games))
    {
      var result := L.OK;
      ghost var ids := L.Ids(View().games);
      assert JoinLines(ids[..0]) == [];
      for k := 0 to |games|
        invariant result == L.OK + JoinLines(ids[..k])
        invariant View() == old(View())
      {
        JoinAppend(ids[..k], [ids[k]]);
        assert ids[..k + 1] == ids[..k] + [ids[k]];
        assert JoinLines([ids[k]]) == ids[k] + [LF] + [];
        result := result + games[k].id;
        result := result + [LF];
      }
      assert ids[..|games|] == ids;
      Send(i, result);
    }

    method ExecuteConnected(i: nat, command: Text)
      requires Valid() && i < |sessions|
      modifies sessions
      ensures View() == L.ExecuteConnected(old(View()), i, command)
    {
      hide L.User, L.Send;
      if command == [] {
      } else if command == L.CMD_HELP {
        Send(i, L.HELP);
      } else if L.CMD_USER <= command {
        var threw := User(i, command[|L.CMD_USER|..]);
        if threw {
          Send(i, L.ERROR);
        }
      } else {
        Send(i, L.UNKNOWN);
      }
    }

    method ExecuteLobby(i: nat, command: Text)
      requires Valid() && i < |sessions|
      modifies this`games, sessions
      ensures View() == L.ExecuteLobby(old(View()), i, command)
    {
      hide L.GameCreate, L.ListReply, L.Send;
      if command == [] {
      } else if command == L.CMD_HELP {
        Send(i, L.HELP);
      } else if L.CMD_CREATE <= command {
        var threw := GameCreate(i, command[|L.CMD_CREATE|..]);
        if threw {
          Send(i, L.ERROR);
        }
      } else if command == L.CMD_LIST {
        GameList(i);
      } else {
        Send(i, L.UNKNOWN);
      }
    }

    method ExecuteCreatingGame(i: nat, command: Text)
      requires Valid() && i < |sessions|
      modifies sessions
      ensures View() == L.ExecuteCreatingGame(old(View()), i, command)
    {
      hide L.Send;
      if command == [] {
      } else if command == L.CMD_HELP {
        Send(i, L.GAME_HELP);
      } else {
        Send(i, L.UNKNOWN);
      }
    }

    /** The receive handler of the lobby; it never throws. */
    method ReceiveHandler(i: nat, command: Text)
      requires Valid() && i < |sessions|
      modifies this`games, sessions
      ensures L.Done(View()) == L.LobbyReceives(old(View()), i, command)
    {
      hide L.ExecuteConnected, L.ExecuteLobby;
      match sessions[i].mode {
        case Entering => ExecuteConnected(i, command);
        case InLobby => ExecuteLobby(i, command);
        case CreatingGame =>
      }
    }

    /** The receive handler of a game. */
    method GameReceiveHandler(i: nat, command: Text) returns (threw: bool)
      requires Valid() && i < |sessions|
      modifies sessions
      ensures (if threw then L.Threw(View()) else L.Done(View())) == L.GameReceives(old(View()), i, command)
    {
      hide L.ExecuteCreatingGame;
      if !sessions[i].mode.CreatingGame? {
        return true;
      }
      ExecuteCreatingGame(i, command);
      return false;
    }

    method SessionReceiveHandler(i: nat, command: Text)
      requires Valid() && i < |sessions|
      modifies this`games, sessions
      ensures View() == L.SessionReceives(old(View()), i, command)
    {
      hide L.HandlerRuns;
      Note(i, command);
      RunHandler(i, command);
    }

    method RunHandler(i: nat, command: Text)
      requires Valid() && i < |sessions|
      modifies this`games, sessions
      ensures View() == L.HandlerRuns(old(View()), i, command)
    {
      hide L.LobbyReceives, L.ExecuteCreatingGame;
      if sessions[i].receiveHandler.OfLobby? {
        ReceiveHandler(i, command);
      } else {
        var threw := GameReceiveHandler(i, command);
        if threw {
          sessions[i].receiving := false;
        }
      }
    }

    /** Keeps the record of the commands. */
    ghost method Note(i: nat, command: Text)
      requires Valid() && i < |sessions|
      modifies sessions
      ensures View() == L.Noted(old(View()), i, command)
    {
      if command != [] {
        sessions[i].commands := sessions[i].commands + [command];
      }
    }

    method SessionReceiveError(i: nat)
      requires Valid() && i < |sessions|
      modifies sessions
      ensures View() == L.SessionReadFails(old(View()), i)
    {
      sessions[i].status := L.Disconnected;
      sessions[i].receiving := false;
    }

    method SessionSendHandler(i: nat, failed: bool)
      requires Valid() && i < |sessions| && sessions[i].unsent > 0
      modifies sessions
      ensures View() == L.SessionWritten(old(View()), i, failed)
    {
      sessions[i].unsent := sessions[i].unsent - 1;
      if failed {
        sessions[i].status := L.Reapable;
      }
    }

    /** Erases while it walks the list. */
    method Reap()
      requires Valid()
      modifies this`sessions
      ensures Valid() && View() == L.Next(old(View()), L.Reap)
      ensures forall s :: s in sessions ==> s in old(sessions)
    {
      hide L.Survivors, Reaped;
      var k := 0;
      ReapEnds(Views(sessions));
      while k < |sessions|
        invariant k <= |sessions| && Valid()
        invariant forall s :: s in sessions ==> s in old(sessions)
        invariant Reaped(Views(sessions), k) == L.Survivors(old(Views(sessions)))
        decreases |sessions| - k
      {
        if sessions[k].status.Reapable? {
          ReapErases(Views(sessions), k);
          Erase(k);
        } else {
          ReapSkips(Views(sessions), k);
          k := k + 1;
        }
      }
      ReapEnds(Views(sessions));
    }

    method Erase(k: nat)
      requires Valid() && k < |sessions|
      modifies this`sessions
      ensures Valid() && Views(sessions) == old(Views(sessions))[..k] + old(Views(sessions))[k + 1..]
      ensures |sessions| == |old(sessions)| - 1
      ensures forall s :: s in sessions ==> s in old(sessions)
    {
      sessions := sessions[..k] + sessions[k + 1..];
    }

    /** One handler of the event loop: the objects do what `Lobby.Next` says, so its runs are theirs. */
    method Dispatch(e: L.Event)
      requires Valid() && L.Enabled(View(), e)
      modifies this, sessions
      ensures Valid() && forall s :: s in sessions ==> s in old(sessions) || fresh(s)
      ensures View() == L.Next(old(View()), e)
    {
      hide L.SessionAccepted, L.SessionReceives, L.SessionReadFails, L.SessionWritten, L.Survivors;
      match e {
        case Accept(i, failed) => SessionAcceptHandler(i, failed);
        case Command(i, text) => SessionReceiveHandler(i, text);
        case ReadFails(i) => SessionReceiveError(i);
        case Written(i, failed) => SessionSendHandler(i, failed);
        case Reap => Reap();
      }
    }
  }
}
