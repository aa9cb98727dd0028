# Zar: message transport, lobby and client input

This project models the running parts of Zar, a client and a server for
role-playing games, and proves what they promise each other.

**Transport.** A message is written to a stream in one of three forms: a line
(ended by a newline), a telnet line (ended by carriage return and newline), or
the project's own basic form (a 32-bit length, a type octet, a 32-bit id, the
contents). `Messages` is the coding of one message. `Framing` is a one-shot
parser of a whole stream and serves as the reference. `Sending` is the sender's
queue with one write under way, `Receiving` the incremental receiver over its
persistent input buffer, `Switching` what that receiver makes of changes of
protocol, `SendHistory` what a run of the sender did, read off its events, `Transport`
both ends with a channel between them, and `Ids` the counter that numbers actions
while any number of threads use it.

**Lobby.** Sessions are accepted, log in, create games, break and are reaped.
`Lobby` says what each handler does, `LobbyInvariants` what every step keeps,
`Commands` what each command is answered, octet by octet,
`LobbyHistory` what follows over whole runs, `Departures` which sessions leave and
when, `ReplyFraming` which replies survive the telnet framing, and `Server` holds the
objects that do it in place.

**Client and connector.** `Client` turns lines of standard input into actions,
with `/begin` and `/end`; `Connecting` is the retry loop over resolved endpoints.
`Lines` and `Bytes` are the shared vocabulary.

**All of it.** `FullStack` runs standard input, client, the connection in both
directions, server and standard output together; `RoundTrip` follows the typed lines
to the commands that a session executes, and its replies to the screen.

Each machine has a state, a set of events that can happen in any order while
enabled, and runs. The classes (`Receiver`, `Sender`, `IdSource`, `Application`,
`Connector`, `Session`, `Game`, `Lobby`) update their fields in place; each
method ties the new state to a function of the old one, and the lemmas are about
those functions and all their runs. Fields such as `pending`, `outstanding`,
`accepting` or `phase` stand for asynchronous operations under way, which the
program leaves to Boost.Asio; each `Dispatch` method is one turn of the event loop.

## What the proofs found

- *The client reads what is typed.* A line that throws leaves the receive handler,
  and standard input is never read again. Reading goes on exactly as long as every
  line is in place in the state that it meets (`Client.ThrowsIffOutOfPlace`,
  `Client.ReadsOnIff`); one word typed before there is a connection ends it
  (`Client.FirstWordSilences`).
- *The server accepts clients.* It does until one accept fails, and nothing else
  stops it (`LobbyHistory.DeafIffAcceptFailed`).
- *Broken sessions are reaped.* A session that was connected leaves the list exactly if
  one of its writes fails and the reaper then runs before its read ends with an error
  (`Departures.LeavesIffWriteFails`, `Departures.FailedWriteIsReaped`). The end of the read
  undoes an earlier failure (`Departures.ClosedThenAborted`), and a client that takes its
  greeting and disconnects stays for good (`Departures.HelloAndGoodbye`,
  `Departures.GoodbyeAndHello`). A session can leave at all exactly if it is not stuck
  (`Departures.NeverReapedIffStuck`), and the user name of one that is stays taken
  (`Departures.NameIsTakenForever`).
- *Everything asked for gets delivered.* It can be, without another request, exactly
  if the sender does not sit on the rest of a failed last write
  (`Transport.DeliverableIffFlushable`). What is delivered are the pieces of the
  messages, and the messages themselves if they are framable
  (`Transport.EndToEndSafety`); so it is for commands and for replies
  (`RoundTrip.CommandsComeFromLines`, `RoundTrip.ScreenShowsReplies`).
- *A message arrives as it was sent.* Exactly if it is framable
  (`Framing.SurvivesIffFramable`). Other texts arrive in pieces and do no further harm
  (`Framing.TextIsCutInPieces`); a basic message whose length does not fit 32 bits is
  cut off, and the rest is taken for further messages (`Framing.OversizedDerails`).
- *A game list arrives in one piece.* Exactly if no game id ends with a carriage return
  (`ReplyFraming.RepliesFrame`); six events from the start lead to one that does not
  (`ReplyFraming.ListBreaks`).
- *The protocol can change at any time.* The read that is pending keeps the frame
  boundary of the old protocol, but its payload is decoded by the new one
  (`Switching.SwitchDuringRead`); from lines to telnet that costs its last octet
  (`Switching.MixedText`). After a change to basic framing with k octets still
  buffered every message is delivered only when k octets beyond it have arrived, for
  good (`Receiving.SwitchLagsForever`); during a read these are the octets that came
  with the frame but behind it.
- *A block is sent as documented.* The code keeps the last newline and drops empty
  lines. The two agree exactly for the empty block and for blocks whose only empty
  line is the last one (`Client.DocumentedIff`).
- *Actions go out in the order of their ids.* Exactly if no thread overtakes another
  between taking its id and posting (`Sending.InOrderIffNotOvertaken`), as long as fewer
  than 2^32 threads are there at once.
- *User names are unique.* Only because handlers are atomic
  (`LobbyHistory.RacingLogins`).

## Assumptions about Boost.Asio

- `async_read_until` may fetch octets beyond the terminator; it reports the length
  up to and including the first terminator, and 0 on an error.
- `async_read` with `transfer_exactly(n)` fetches n new octets, whatever the buffer
  already holds, and on an error reports those it did fetch.
- `async_write` consumes from the buffer exactly the octets it reports, on an error
  too, and without an error it has written the whole buffer.
- Closing a socket after a failed write does not throw. `shutdown` can
  (src/modules/communication/tcp_socket.cpp:83); then the status of the session would
  stay, and its sender would neither drop the front message nor write again.
- A strand runs posted handlers one at a time, in order. Handlers of the lobby are
  atomic steps, although sessions have separate strands; `RacingLogins` says what
  depends on it.

## Model

| member | source | states |
|---|---|---|
| Bytes.WordRoundTrip | src/modules/communication/message.cpp:154-165 | every 32-bit word survives the conversion to network order and back |
| Bytes.OctetsRoundTrip | src/modules/communication/message.cpp:154-165 | every four octets survive the conversion to a word and back, so the conversions are bijections |
| Messages.DecodeUndoesEncode | src/modules/communication/message.cpp:26-134 | decoding what a receiver is handed of an encoding gives the message back (its contents for the line protocols), for every message |
| Messages.EncodeUndoesDecode | src/modules/communication/message.cpp:26-134 | a payload that decodes is the payload of what it decodes to if and only if it is basic or ends with its terminator |
| Messages.Octets | src/modules/communication/message.cpp:93-165 | the octets of each protocol in numbers: terminators, type, and the length and id with the most significant octet first |
| Messages.DecodesIff | src/modules/communication/message.cpp:26-91 | exactly which payloads decode, to what text, and with which error the others are refused |
| Framing.First | src/modules/communication/detail/receiver.cpp:98-126 | the frame boundary of the line protocols is the first occurrence of the terminator, and there is none before |
| Framing.ParseExtends | src/modules/communication/detail/receiver.cpp:59-218 | more input never changes what a stream has parsed to, it continues it; a malformed frame stops it for good |
| Framing.ParseMonotone | src/modules/communication/detail/receiver.cpp:59-218 | a prefix of a stream parses to a prefix of its messages |
| Framing.ParseReencodes | src/modules/communication/message.cpp:26-134 | for every stream, the parsed messages re-encoded and the rest are the stream again |
| Framing.FirstTerminator | src/modules/communication/message.cpp:104-110 | the terminator that encode appends is the first one, also behind contents ending with a carriage return |
| Framing.EncodedFrame | src/modules/communication/message.cpp:93-134 | a framable message, followed by anything, is the first frame of the stream, exactly |
| Framing.SurvivesIffFramable | src/modules/communication/message.cpp:104-125 | a message survives encode, framing and decode if and only if it holds no newline (line), no carriage return and newline in a row (telnet), or fits the 32-bit length (basic) |
| Framing.TextIsCutInPieces | src/modules/communication/message.cpp:104-110 | any message on a line protocol, with any stream behind it, arrives as the framable pieces between its terminators, which make up its encoding again; it is one piece if and only if it is framable; the stream behind it is not affected |
| Framing.TextStreamIsPieces | src/modules/communication/detail/receiver.cpp:98-126 | any list of messages on a line protocol arrives as the pieces of each, as many as messages if and only if all are framable |
| Framing.PrefixArrives | src/modules/communication/detail/receiver.cpp:59-218 | every prefix of the stream of any messages parses to a prefix of what the whole parses to, and is not malformed unless a basic message was oversized |
| Framing.OversizedDerails | src/modules/communication/message.cpp:122-125 | what a stream parses to from a basic message on whose length the cast truncates: an end of parsing, or the message cut off and its tail taken for further messages |
| Framing.ParseEncoded | src/modules/communication/message.cpp:93-134 | a stream of framable messages, followed by anything, parses to those messages and then to the parse of what follows |
| Framing.UniquelyDecodable | src/modules/communication/message.cpp:93-134 | two lists of framable messages with the same octets are the same list (the same contents for the line protocols) |
| Framing.ParsedIsFramable | src/modules/communication/detail/receiver.cpp:74-80 | what the line protocols deliver fits them again, and nothing is malformed for them |
| Receiving.Keeps | src/modules/communication/detail/receiver.cpp:59-218 | every event keeps the receiver at a frame boundary of the stream: what it delivered is exactly the parse of what it consumed, the header of a half-read frame included |
| Receiving.KeepsRun | src/modules/communication/detail/receiver.cpp:59-218 | the same over every run |
| Receiving.DeliversPrefix | src/modules/communication/detail/receiver.cpp:59-218 | at any point of any run, with errors and throwing handlers, the deliveries are a prefix of the parse of the stream |
| Receiving.SettledIsParse | src/modules/communication/detail/receiver.cpp:59-218 | once it waits, or stopped at a malformed frame, the receiver has delivered exactly what the one-shot parser gives for the stream less the lag, and stops where the parser stops |
| Receiving.ChunkIndependence | src/modules/communication/detail/receiver.cpp:98-218 | two runs over the same octets deliver the same messages, however the octets were cut up and the reads completed |
| Receiving.SwitchLagsForever | src/modules/communication/detail/receiver.cpp:82-181 | with k surplus octets when basic framing starts, the buffer holds k octets at the start of every later read, and nothing is delivered before k octets beyond it have come |
| Receiving.DeliversFramable | src/modules/communication/detail/receiver.cpp:74-80 | line and telnet receivers deliver only contents that fit their protocol |
| Receiving.Accounting | src/modules/communication/detail/receiver.cpp:148-202 | over every run, protocol changes included, a read error is reported once, and total and buffer account for every octet |
| Receiving.WhatIsLeft | src/modules/communication/detail/receiver.cpp:183-212 | what stays in the buffer when a run has stopped: all of a malformed frame but its length, with what came behind it, and none of the octets that a failed read reported |
| Receiving.HungryIsExact | src/modules/communication/detail/receiver.cpp:98-181 | a receiver that waits has delivered every whole frame of the visible stream, and holds exactly the incomplete one |
| Receiving.InternalStep | src/modules/communication/detail/receiver.cpp:50-57 | a receiver that does not wait for the stream can always go on, and gets closer to waiting |
| Receiving.Settles | src/modules/communication/detail/receiver.cpp:50-57 | without new octets it reaches a settled state by itself |
| Receiving.Receiver.ReceiveMessage | src/modules/communication/detail/receiver.cpp:59-96 | starts the read that the protocol asks for |
| Receiving.Receiver.AsioReceiveHandlerReadLength | src/modules/communication/detail/receiver.cpp:148-181 | error, bad count and length branches, as the state function |
| Receiving.Receiver.AsioReceiveHandler | src/modules/communication/detail/receiver.cpp:183-218 | error, malformed, throwing and re-arming branches, as the state function |
| Receiving.Receiver.Dispatch | src/modules/communication/detail/receiver.cpp:50-218 | the object refines every event of the receiver machine, so the run lemmas hold of it |
| Switching.SwitchMidStream | src/modules/communication/tcp_socket.cpp:87-91 | a change of protocol between two reads splits the stream at one place; both parts are parsed in full, nothing is lost or read twice |
| Switching.HybridRun | src/modules/communication/detail/receiver.cpp:205-209 | a read of protocol p that completes under protocol q delivers the extent by p decoded by q, or stops as malformed, and then the parse by q of what follows; under basic framing less exactly the octets that had come behind the frame when it was complete |
| Switching.SwitchDuringRead | src/modules/communication/tcp_socket.cpp:87-91 | a change while a read is pending, in any run: the stream is whole frames of the old protocol, that one mixed frame, and the parse in the new one with that lag |
| Switching.MixedText | src/modules/communication/message.cpp:33-44 | the mixed frame among the line protocols: a line loses its last octet, an empty line becomes a newline, a telnet line keeps its carriage return |
| Switching.SwitchesLoseNothing | src/modules/communication/detail/receiver.cpp:59-218 | in every run with any number of changes at any time each delivery is one frame of the protocol its read was armed with, decoded by the one in force at its end; these frames and what is held are the stream, in order |
| Sending.Keeps | src/modules/communication/detail/sender.cpp:78-151 | every event keeps the single writer, the order of messages and the conservation of octets |
| Sending.SenderIsSound | src/modules/communication/detail/sender.cpp:78-151 | over every run, partial and failed writes included: wire followed by buffer is all encodings started, total is the octets reported and written, at most one write is outstanding and it is for the front message |
| Sending.HandlerInOrder | src/modules/communication/detail/sender.cpp:95-116 | the send handler hears of every message once, in the order of posting, whether its write failed or not |
| Sending.LeftoverWaits | src/modules/communication/detail/sender.cpp:95-116 | with no message on its way neither buffer nor wire moves until another one is asked for; that a message is thereby missing says `Transport.LeftoverIsMissing` |
| Sending.FailureOnlyDelays | src/modules/communication/detail/sender.cpp:95-151 | after any failures, one write that ends well with the queue empty has put all messages on the wire |
| Sending.ActionsAreNumbered | src/modules/communication/detail/sender.cpp:36-52 | over every run, with threads between taking an id and posting: ids are 1 + (n - 1) mod (2^32 - 1), each action that has one is posted once or not yet, and actions are posted in the order of their ids unless a thread overtakes another |
| Sending.InOrderIffNotOvertaken | src/modules/communication/detail/sender.cpp:36-52 | over every run, however often the ids wrap, actions are posted in the order of their ids if and only if no thread overtook another; at most 2^32 - 1 threads at once are between the two halves |
| SendHistory.RequestsArePosted | src/modules/communication/detail/sender.cpp:36-67 | from the events alone: the k-th action asked for has the k-th id and its own text and is posted once or not yet, replies are posted in order with their ids and texts, and nothing else is posted |
| SendHistory.StartsUnderProtocol | src/modules/communication/detail/sender.cpp:118-129 | from the events alone: each write is started for the front message, encoded by the protocol set last |
| SendHistory.HandlerHearsResults | src/modules/communication/detail/sender.cpp:95-112 | from the events alone: the send handler is called once for each write that ended, with its result and with the octets it put on the wire |
| Sending.Sender.SendAction | src/modules/communication/detail/sender.cpp:36-52 | a thread that is not overtaken takes a fresh non-zero id and posts one action with it |
| Sending.Sender.TakeId | src/modules/communication/detail/sender.cpp:42-44 | the first half: a fresh non-zero id, the action not posted yet |
| Sending.Sender.PostMessage | src/modules/communication/detail/sender.cpp:45-49 | the second half: any of the actions that have their id is posted |
| Sending.Sender.SendMessage | src/modules/communication/detail/sender.cpp:78-93 | queues it and starts a write only if the queue was empty |
| Sending.Sender.SendQueueMessageHandler | src/modules/communication/detail/sender.cpp:95-116 | the handler hears of the front message, which leaves the queue; the next write starts |
| Sending.Sender.SendQueueMessage | src/modules/communication/detail/sender.cpp:118-151 | the encoding of the front message goes behind what is left in the buffer |
| Sending.Sender.Dispatch | src/modules/communication/detail/sender.cpp:36-151 | the object refines every event of the sender machine, so the run lemmas hold of it |
| Transport.EndToEndSafety | src/modules/communication/detail/sender.cpp:78-151 | in every interleaving of both ends, with partial and failed writes and any messages: the deliveries are a prefix of what the messages parse to, that is of their pieces on the line protocols and of the messages themselves if they are framable; only an oversized basic message can be found malformed |
| Transport.EndToEndComplete | src/modules/communication/detail/receiver.cpp:59-218 | once the sender and the channel are empty and the receiver waits, the deliveries are all of that |
| Transport.CanDeliverAll | src/modules/communication/detail/receiver.cpp:59-218 | from every reachable state with a live receiver and no oversized basic message, unless only the rest of a failed write is left, there is a continuation without requests that delivers everything |
| Transport.LeftoverIsMissing | src/modules/communication/detail/sender.cpp:95-116 | while the sender sits on the rest of a failed last write, something asked for has not been delivered |
| Transport.DeliverableIffFlushable | src/modules/communication/detail/sender.cpp:95-151 | in every reachable state with a live receiver and no oversized basic message: a continuation without requests delivers everything if and only if the sender does not sit on the rest of a failed last write |
| Ids.IdSource.Allocate | src/modules/communication/detail/sender.cpp:42-44 | the loop ends, and the id is the successor of the last one, skipping zero |
| Ids.KeepsInStep | src/modules/communication/detail/sender.cpp:42-44 | any thread's increment keeps the counter in step with the number of ids handed out |
| Ids.IdsAreDistinct | src/modules/communication/detail/sender.cpp:42-44 | over every interleaving of threads the n-th id is 1 + (n - 1) mod (2^32 - 1): never zero, distinct in every window of that length, retried only on a wrap |
| Ids.AloneIsSuccessor | src/modules/communication/detail/sender.cpp:42-44 | a thread alone in the loop gets what the loop computes |
| Lines.SplitUndoesJoin | src/czar/application.cpp:187-191 | splitting joined lines at the newlines gives the lines back |
| Lines.JoinFitsTelnet | src/modules/lobby/lobby.cpp:94-98 | joined lines fit one telnet message if and only if none ends with a carriage return |
| Client.OneLine | src/czar/application.cpp:102-195 | each line either sends the action it stands for or leaves it to later lines |
| Client.Refines | src/czar/application.cpp:102-195 | while connected, the actions sent in any run are those of the block structure of its lines |
| Client.SendsWhatLinesMean | src/czar/application.cpp:102-233 | for every run: nothing is sent or kept before the connection is up, and afterwards exactly what the lines stand for |
| Client.BufferOnlyInBlock | src/czar/application.cpp:137-157 | outside a block the buffer is empty, in every run |
| Client.ConnectsAreWished | src/czar/application.cpp:159-165 | over every run the connections asked for are exactly the servers named in `/connect` lines typed while lines were read and before a connection was up, in order |
| Client.ReceivesAfterAttempts | src/czar/application.cpp:222-233 | over every run the socket is told to receive once after every attempt, and the client is connected exactly if one succeeded |
| Client.ThrowsIffOutOfPlace | src/czar/application.cpp:102-195 | a line throws if and only if it is out of place: not empty, not a text while connected, not `/begin` outside a block, not `/end` inside one while connected, not `/connect` while not connected; which exception it is; and that nothing changes but that an `/end` without a connection drops the block |
| Client.ReadsOnIff | src/modules/communication/detail/receiver.cpp:196-217 | over every run standard input is still read if and only if it did not fail and every line was in place in the state that it met |
| Client.FirstWordSilences | src/czar/application.cpp:180-184 | a word typed before there is a connection is such a line: a run from the start that ends the reading |
| Client.ErrorSilences | src/modules/communication/detail/receiver.cpp:213-217 | after a line out of place nothing is ever sent |
| Client.BlockSplits | src/czar/application.cpp:187-191 | splitting the action of a block gives back its non-empty lines |
| Client.BlockFitsTelnet | src/czar/application.cpp:187-192 | the action of a block fits one telnet message if and only if no line ends with a carriage return |
| Client.DocumentedIff | doc/design/tex/client.tex:45-72 | the action sent is the documented one if and only if the block is empty or its only empty line is the last |
| Client.Application.Receive | src/czar/application.cpp:34-38 | what standard input brings is executed while the input is armed, which an exception or an error ends |
| Client.Application.Execute | src/czar/application.cpp:102-126 | an error, an empty line, client and server lines |
| Client.Application.ExecuteClient | src/czar/application.cpp:128-174 | begin, end, connect and their errors |
| Client.Application.ExecuteServer | src/czar/application.cpp:176-195 | refused, buffered or sent |
| Client.Application.AsioCallbackSocketConnect | src/czar/application.cpp:222-233 | connected from the first success on; the socket receives after every attempt |
| Client.Application.Dispatch | src/czar/application.cpp:102-233 | the object refines every event of the client machine |
| Connecting.Keeps | src/modules/communication/detail/connector.cpp:94-166 | every attempt follows the schedule of rounds |
| Connecting.ConnectsBySchedule | src/modules/communication/detail/connector.cpp:94-166 | over every run in which the resolver answers with n endpoints: exactly the first so many attempts of their schedule of n(n+1)/2 are made; it ends exactly with the first success or after all of them, and then the handler was called once, with an error exactly if none succeeded |
| Connecting.NothingToTry | src/modules/communication/detail/connector.cpp:103-108 | when the resolver fails that is reported once and nothing is tried |
| Connecting.ScheduleLength | src/modules/communication/detail/connector.cpp:114-166 | the schedule has n(n+1)/2 attempts |
| Connecting.EachAttemptIsProgress | src/modules/communication/detail/connector.cpp:140-166 | it cannot get stuck and each attempt leaves less to try |
| Connecting.Connector.AsioResolveHandler | src/modules/communication/detail/connector.cpp:94-112 | reports an error or starts with the first endpoint |
| Connecting.Connector.AsioConnectHandler | src/modules/communication/detail/connector.cpp:140-166 | reports success, or the last failure, or starts the next round |
| Connecting.Connector.Dispatch | src/modules/communication/detail/connector.cpp:94-166 | the object refines every event of the connector machine |
| LobbyInvariants.GoodInit | src/modules/lobby/lobby.cpp:115-133 | the server starts sound |
| LobbyInvariants.EmptyNameIsTaken | src/modules/lobby/lobby.cpp:44-53 | the empty user name is refused because the asking session has it |
| LobbyInvariants.LoginKeeps | src/modules/lobby/lobby.cpp:39-58 | a login keeps user names distinct and tied to the mode |
| LobbyInvariants.GameKeeps | src/modules/game/game.cpp:25-50 | a created game has its creator as only player and game master under its login, and ids stay distinct |
| LobbyInvariants.NewSessionKeeps | src/modules/lobby/lobby.cpp:254-270 | a new waiting session is the only one, and the last |
| LobbyInvariants.SurvivorsMembers | src/modules/lobby/detail/session_reaper.cpp:48-62 | reaping keeps exactly the sessions that are not reapable |
| LobbyInvariants.SurvivorsOrdered | src/modules/lobby/detail/session_reaper.cpp:48-62 | and keeps them in the order of creation |
| LobbyInvariants.SurvivorsBack | src/modules/lobby/detail/session_reaper.cpp:48-62 | and never removes the waiting session, which stays last |
| LobbyInvariants.CommandEffect | src/modules/lobby/lobby.cpp:173-252 | in a sound server a non-empty command, in any mode and through either handler, has exactly one reply and the effect of the decision table, exceptions included |
| LobbyInvariants.Keeps | src/modules/lobby/lobby.cpp:148-270 | every handler keeps the login, accept, game and reply invariants |
| LobbyInvariants.KeepsRun | src/modules/lobby/lobby.cpp:148-270 | the same over every run |
| Commands.Helps | src/modules/lobby/lobby.cpp:205-252 | the help of each mode, literally |
| Commands.LogsInIff | src/modules/lobby/lobby.cpp:39-58 | in every sound state a login is accepted exactly before any other and if no session has that name, under that name; all replies literally |
| Commands.CreatesIff | src/modules/lobby/lobby.cpp:60-77 | in every sound state a game is created exactly from the lobby and if no game has that id, with that id and the creator as game master under its login; all replies literally, the id between two fixed texts |
| Commands.ListsAll | src/modules/lobby/lobby.cpp:89-100 | the list holds the id of every game on a line, in order of creation |
| Commands.RefusesOthers | src/modules/lobby/lobby.cpp:205-252 | any other text is refused, in any mode, and the empty one ignored |
| Commands.Greets | src/modules/lobby/lobby.cpp:161-165 | whoever is accepted is greeted first, literally |
| Commands.AcceptedIffFree | src/modules/lobby/lobby.cpp:39-77 | over every run a name or a game id is accepted if and only if no session or game has it |
| Commands.FirstClient | src/modules/game/game.cpp:86-102 | one run from the start with everything that it is told |
| LobbyHistory.ReachableIsSound | src/modules/lobby/lobby.cpp:39-171 | in every reachable state: no id means not logged in, ids are distinct, exactly the waiting session has a pending accept and it is the last, sessions are in order of creation, game ids are distinct |
| LobbyHistory.RepliesAreConserved | src/modules/lobby/lobby.cpp:161-252 | in every reachable state a session was sent one greeting and one matching reply per non-empty command, in order; what a list holds says `LobbyHistory.ListRepliesAreGames` |
| LobbyHistory.ListRepliesAreGames | src/modules/lobby/lobby.cpp:89-100 | in every reachable state each reply to a game list that was not refused is an OK line and the ids of the first so many games, a line each, in order of creation |
| LobbyHistory.StepHistory | src/modules/lobby/session.cpp:72-101 | a step creates a session or moves an existing one forward |
| LobbyHistory.RunHistory | src/modules/lobby/session.cpp:72-101 | over every run modes only go forward, a login stays, sent texts and games only grow |
| LobbyHistory.LeavesIffReaped | src/modules/lobby/detail/session_reaper.cpp:48-62 | a session leaves the list if and only if the reaper runs while it is reapable |
| LobbyHistory.StaysAt | src/modules/lobby/session.cpp:79-101 | any step but reaping leaves every session in its place, at most one mode further |
| LobbyHistory.GamesMatchCreators | src/modules/lobby/lobby.cpp:60-77 | over every run the games correspond one to one with the sessions that ever were creating one |
| LobbyHistory.MasterUnderLogin | src/modules/game/game.cpp:32-36 | a session that was creating a game at any time of a run, reaped since or not, is ever after the only player and game master of exactly one game, under its login |
| LobbyHistory.RacingLogins | src/modules/lobby/lobby.cpp:44-57 | two logins past the check at once keep names distinct if and only if they ask for different ones |
| LobbyHistory.DeafForever | src/modules/lobby/lobby.cpp:156-171 | without a pending accept no session is created any more |
| LobbyHistory.DeafIffAcceptFailed | src/modules/lobby/session.cpp:121-135 | over every run from the start nobody can be accepted any more if and only if an accept has failed |
| LobbyHistory.AcceptErrorIsFinal | src/modules/lobby/session.cpp:121-135 | after an accept error nobody is accepted, in any continuation |
| Departures.StuckForever | src/modules/lobby/session.cpp:154-164 | a session with no handler left to run stays in the list, in any continuation |
| Departures.CanLeave | src/modules/lobby/session.cpp:168-186 | every other session has a continuation that removes it |
| Departures.NeverReapedIffStuck | src/modules/lobby/session.cpp:137-186 | a session can leave the list if and only if it is not stuck |
| Departures.LeavesIffWriteFails | src/modules/lobby/session.cpp:154-185 | over every run, with the reaper and all other sessions: a session that was connected leaves the list if and only if one of its writes fails and the reaper runs after that, before its read ends with an error |
| Departures.ReapableIffWriteFailed | src/modules/lobby/session.cpp:154-185 | over every run without the reaper: it is reapable if and only if the last of its failed writes and the end of its read is a failed write |
| Departures.FailedWriteIsReaped | src/modules/lobby/session.cpp:168-188 | in every sound state, whether it still reads or not: a failed write of a session and then the reaper remove it |
| Departures.DisconnectedIsStuck | src/modules/lobby/session.cpp:154-164 | right after its read ended with an error a session is stuck if and only if none of its writes is outstanding; what happens otherwise says `Departures.LeavesIffWriteFails` |
| Departures.HelloAndGoodbye | src/modules/lobby/session.cpp:121-188 | from the start: connecting, the greeting written or not, and leaving ends in a stuck session |
| Departures.GoodbyeAndHello | src/modules/lobby/session.cpp:121-188 | from the start: when the read ends before the greeting is written, the session is stuck if and only if that write succeeds |
| Departures.ClosedThenAborted | src/modules/lobby/session.cpp:154-185 | a failed write followed by the aborted read leaves a session stuck |
| Departures.NameIsTakenForever | src/modules/lobby/lobby.cpp:44-53 | the name of a stuck session is refused in every continuation |
| ReplyFraming.CreatedFits | src/modules/game/game.cpp:38 | the reply to a created game always fits one telnet message |
| ReplyFraming.ListFits | src/modules/lobby/lobby.cpp:89-100 | the game list fits one telnet message if and only if no id ends with a carriage return |
| ReplyFraming.ListRepliesSplit | src/modules/lobby/lobby.cpp:89-100 | and as long as no id holds a newline, splitting it at the newlines gives the OK and exactly these ids in order |
| ReplyFraming.ReplyFitsIff | src/modules/lobby/lobby.cpp:205-252 | of all replies only the list can fail to fit, exactly as above |
| ReplyFraming.RepliesFrame | src/modules/lobby/lobby.cpp:205-252 | the same for the next reply after every run on telnet commands |
| ReplyFraming.FirstListFitsIff | src/modules/lobby/lobby.cpp:205-252 | two logins and one game from the start: the list that follows fits if and only if the id does not end with a carriage return |
| ReplyFraming.ListBreaks | src/modules/lobby/lobby.cpp:89-100 | one such run whose list does not fit |
| Server.Game.constructor | src/modules/game/game.cpp:25-50 | the creator is game master, changes mode, is told, and its messages go to the game |
| Server.Lobby.constructor | src/modules/lobby/lobby.cpp:115-133 | one waiting session with a pending accept |
| Server.Lobby.AcceptHandler | src/modules/lobby/lobby.cpp:156-171 | greets the last session, then a new one listens |
| Server.Lobby.SessionAcceptHandler | src/modules/lobby/session.cpp:121-135 | an error only makes the session reapable |
| Server.Lobby.User | src/modules/lobby/lobby.cpp:39-58 | the scan throws if and only if a session has the name, otherwise logs in |
| Server.Lobby.GameCreate | src/modules/lobby/lobby.cpp:60-77 | the scan throws if and only if a game has the id, otherwise creates it |
| Server.Lobby.GameIds | src/modules/lobby/lobby.cpp:79-87 | the id of every game, in order of creation |
| Server.Lobby.GameList | src/modules/lobby/lobby.cpp:89-100 | the accumulated reply is the list of lines |
| Server.Lobby.ExecuteConnected | src/modules/lobby/lobby.cpp:205-225 | the commands before login, exceptions answered |
| Server.Lobby.ExecuteLobby | src/modules/lobby/lobby.cpp:227-252 | the commands after login, exceptions answered |
| Server.Lobby.ExecuteCreatingGame | src/modules/game/game.cpp:86-102 | the commands while creating a game |
| Server.Lobby.ReceiveHandler | src/modules/lobby/lobby.cpp:173-203 | dispatch by mode |
| Server.Lobby.GameReceiveHandler | src/modules/game/game.cpp:58-84 | throws outside the creating mode |
| Server.Lobby.SessionReceiveHandler | src/modules/lobby/session.cpp:137-166 | runs the handler the session has |
| Server.Lobby.RunHandler | src/modules/lobby/session.cpp:150-152 | the lobby's or the game's handler; when it throws the session is not armed again |
| Server.Lobby.SessionReceiveError | src/modules/lobby/session.cpp:154-164 | disconnected, not armed again |
| Server.Lobby.SessionSendHandler | src/modules/lobby/session.cpp:168-188 | an error makes the session reapable |
| Server.Lobby.Reap | src/modules/lobby/detail/session_reaper.cpp:48-62 | erasing while walking gives the order-preserving filter |
| Server.Lobby.Dispatch | src/modules/lobby/lobby.cpp:102-113 | the objects refine every event of the server machine, so the run lemmas hold of them |
| RoundTrip.CommandsComeFromLines | src/czar/application.cpp:102-233 | in every interleaving of standard input, client, sender, channel, receiver and server, with any chunks and partial or failed writes: the commands that the session executed are a prefix of the non-empty pieces of the actions the lines of standard input stand for, all of them once nothing is under way, and the actions themselves if they fit telnet |
| RoundTrip.ScreenShowsReplies | src/czar/application.cpp:246-262 | in every such run standard output holds, a line each, a prefix of the pieces of the greeting and one answer to each command, all of them once nothing is under way, and the texts themselves if they fit telnet |
| FullStack.KeepsRun | src/modules/lobby/session.cpp:137-166 | over every run: the client went through exactly the lines delivered, each direction was asked for exactly what its end sent, the session executed exactly what was delivered to it, standard output was asked for exactly what was delivered to the client |

## Left out

- Sockets, files, signals, timers, name resolution and the thread pool: they appear as events, under the assumptions above.
- `tacceptor`, `tconnection`, `tfile` and `ttcp_socket`: they forward calls; only the protocol field is kept.
- Object lifetimes: the handler bound to a temporary game and handlers of a reaped session; sessions are known by serial number instead.
- The `direct` and `compressed` protocols: not implemented in the code.
- Connecting.Connector.AsioResolveHandler: assumes a connect handler, since without one the code connects to the end iterator after a resolver error.
- Absent receive and send handlers: every user of the transport sets them before the first message.
- The width of `size_t` totals: they are unbounded numbers.
- Logging, configuration, options, enum texts and the exception class: no behaviour beyond single branches.
- `join_lobby`, dice, saving and loading games, `SERVER:SERVICE`: documented or declared only.
- The value returned by `execute_client` and `execute_server`: no caller uses it.
- Server.Lobby.SessionSendHandler: assumes, like `Sending.Sender.SendQueueMessageHandler`, that the send handler does not throw; see the assumptions.
- A session that was reaped while its sender still writes, and a receiver of the client that is armed twice because an earlier connection attempt failed.
