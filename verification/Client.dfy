/**
 * `tapplication`: lines typed on standard input become actions for the server.
 * Between `/begin` and `/end` they are collected into a single action.
 */
module Client {
  import opened Bytes
  import opened Messages
  import opened Framing
  import opened Lines

  datatype Error = Busy | NotBuffering | NotConnected | Unsupported

  /**
   * `listening`: the next line can still come in. An exception thrown by
   * `execute` leaves the receive handler, and the receiver does not re-arm.
   */
  datatype State = State(
    buffering: bool,       // buffering_mode_
    buffer: Text,          // command_buffer_
    connected: bool,       // connected_
    listening: bool,
    sent: seq<Text>,       // send_action calls on the socket
    connects: seq<Text>,   // connect calls on the socket
    receives: nat          // receive calls on the socket
  )

  datatype Outcome = Outcome(state: State, error: Option<Error>)

  const INIT := State(false, [], false, true, [], [], 0)

  const SLASH: byte := 47

  // ---- the code

  function Served(s: State, command: Text): Outcome {
    if !s.connected then Outcome(s, Some(NotConnected))
    else if s.buffering then Outcome(s.(buffer := s.buffer + command + [LF]), None)
    else Outcome(s.(sent := s.sent + [command]), None)
  }

  function Commanded(s: State, command: Text): Outcome {
    if command == Ascii("begin") then
      if s.buffering then Outcome(s, Some(Busy)) else Outcome(s.(buffering := true), None)
    else if command == Ascii("end") then
      if !s.buffering then Outcome(s, Some(NotBuffering))
      else Served(s.(buffering := false, buffer := []), s.buffer)
    else if Ascii("connect ") <= command then
      if s.connected then Outcome(s, Some(Busy)) else Outcome(s.(connects := s.connects + [command[8..]]), None)
    else Outcome(s, Some(Unsupported))
  }

  function Executed(s: State, line: Text): Outcome {
    if line == [] then Outcome(s, None)
    else if line[0] == SLASH then Commanded(s, line[1..])
    else Served(s, line)
  }

  /**
   * `Typed`: a line came in on standard input. `InputFails`: reading it failed or
   * came to its end. `Connection`: a connection attempt ended.
   */
  datatype Event = Typed(line: Text) | InputFails | Connection(ok: bool)

  function Next(s: State, e: Event): State {
    match e
    case Typed(line) =>
      if !s.listening then s
      else var r := Executed(s, line); if r.error.Some? then r.state.(listening := false) else r.state
    case InputFails => s.(listening := false)
    case Connection(ok) => s.(connected := s.connected || ok, receives := s.receives + 1)
  }

  function Run(s: State, es: seq<Event>): State
    decreases |es|
  {
    if es == [] then s else Run(Next(s, es[0]), es[1..])
  }

  // ---- the reference: lines have a block structure

  predicate IsCommand(line: Text) {
    line != [] && line[0] == SLASH
  }

  /** The place of the first client command. */
  function FirstCommand(lines: seq<Text>): (k: nat)
    ensures k <= |lines|
    ensures k < |lines| ==> IsCommand(lines[k])
    ensures forall i :: 0 <= i < k ==> !IsCommand(lines[i])
  {
    if lines == [] || IsCommand(lines[0]) then 0 else 1 + FirstCommand(lines[1..])
  }

  function NonEmpty(lines: seq<Text>): seq<Text> {
    if lines == [] then [] else (if lines[0] == [] then [] else [lines[0]]) + NonEmpty(lines[1..])
  }

  /** The one action a block stands for. */
  function Block(body: seq<Text>): Text {
    JoinLines(NonEmpty(body))
  }

  /**
   * The actions that lines stand for while connected. The first command that is
   * out of place ends it all, and so does a block that is never closed.
   */
  function Actions(lines: seq<Text>): seq<Text>
    decreases |lines|
  {
    if lines == [] then []
    else if lines[0] == [] then Actions(lines[1..])
    else if !IsCommand(lines[0]) then [lines[0]] + Actions(lines[1..])
    else if lines[0] == Ascii("/begin") then InBlock([], lines[1..])
    else []
  }

  /** The same, inside a block that already holds the lines of `body`. */
  function InBlock(body: seq<Text>, lines: seq<Text>): seq<Text>
    decreases |lines|
  {
    var k := FirstCommand(lines);
    if k < |lines| && lines[k] == Ascii("/end") then [Block(body + lines[..k])] + Actions(lines[k + 1..]) else []
  }

  /** The lines typed before the input came to its end. */
  function LinesOf(es: seq<Event>): seq<Text> {
    if es == [] || es[0].InputFails? then [] else (if es[0].Typed? then [es[0].line] else []) + LinesOf(es[1..])
  }

  lemma LinesCons(e: Event, es: seq<Event>)
    ensures LinesOf([e] + es) == if e.InputFails? then [] else (if e.Typed? then [e.line] else []) + LinesOf(es)
    ensures InputFails in [e] + es <==> e.InputFails? || InputFails in es
  {
    assert ([e] + es)[1..] == es;
  }

  lemma {:induction false} LinesAppend(es: seq<Event>, fs: seq<Event>)
    ensures LinesOf(es + fs) == if InputFails in es then LinesOf(es) else LinesOf(es) + LinesOf(fs)
  {
    assert LinesOf([]) == [];
    hide LinesOf;
    if es == [] {
      assert es + fs == fs && [] + LinesOf(fs) == LinesOf(fs);
    } else {
      var e, rest := es[0], es[1..];
      assert es == [e] + rest;
      Associate([e], rest, fs);
      LinesCons(e, rest);
      LinesCons(e, rest + fs);
      LinesAppend(rest, fs);
      Associate(if e.Typed? then [e.line] else [], LinesOf(rest), LinesOf(fs));
    }
  }

  // ---- the refinement

  lemma CommandNames(line: Text)
    requires IsCommand(line)
    ensures line[1..] == Ascii("begin") <==> line == Ascii("/begin")
    ensures line[1..] == Ascii("end") <==> line == Ascii("/end")
  {}

  lemma BeginIsNotEnd()
    ensures Ascii("begin") != Ascii("end") && Ascii("/begin") != Ascii("/end")
    ensures !(Ascii("connect ") <= Ascii("begin")) && !(Ascii("connect ") <= Ascii("end"))
  {}

  lemma {:induction false} NonEmptyAppend(a: seq<Text>, b: seq<Text>)
    ensures NonEmpty(a + b) == NonEmpty(a) + NonEmpty(b)
  {
    if a == [] {
      assert a + b == b;
    } else {
      var head := if a[0] == [] then [] else [a[0]];
      calc {
        NonEmpty(a + b);
        { assert (a + b)[1..] == a[1..] + b; }
        head + NonEmpty(a[1..] + b);
        { NonEmptyAppend(a[1..], b); }
        head + (NonEmpty(a[1..]) + NonEmpty(b));
        NonEmpty(a) + NonEmpty(b);
      }
    }
  }

  lemma {:induction false} NonEmptyMembers(lines: seq<Text>)
    ensures forall l :: l in NonEmpty(lines) <==> l in lines && l != []
  {
    if lines != [] {
      NonEmptyMembers(lines[1..]);
      assert lines == [lines[0]] + lines[1..];
    }
  }

  lemma BlockAppend(body: seq<Text>, line: Text)
    ensures Block(body + [line]) == if line == [] then Block(body) else Block(body) + line + [LF]
  {
    NonEmptyAppend(body, [line]);
    JoinAppend(NonEmpty(body), NonEmpty([line]));
    assert NonEmpty([line]) == if line == [] then [] else [line];
    assert JoinLines([line]) == line + [LF] + [];
  }

  /** What the remaining lines stand for in state `s`, whose open block holds the lines of `body`. */
  function Meaning(s: State, body: seq<Text>, lines: seq<Text>): seq<Text> {
    if !s.listening then [] else if s.buffering then InBlock(body, lines) else Actions(lines)
  }

  ghost predicate Holds(s: State, body: seq<Text>) {
    s.connected && s.buffer == (if s.buffering then Block(body) else [])
  }

  lemma Shift(body: seq<Text>, line: Text, tail: seq<Text>, k: nat)
    requires k < |tail|
    ensures ([line] + tail)[k + 1] == tail[k]
    ensures body + [line] + tail[..k] == body + ([line] + tail)[..k + 1]
    ensures ([line] + tail)[k + 2..] == tail[k + 1..]
  {}

  lemma InBlockKeeps(body: seq<Text>, lines: seq<Text>)
    requires lines != [] && !IsCommand(lines[0])
    ensures InBlock(body + [lines[0]], lines[1..]) == InBlock(body, lines)
  {
    hide Block, Actions, Ascii;
    var line, tail := lines[0], lines[1..];
    var k := FirstCommand(tail);
    assert lines == [line] + tail;
    if k < |tail| {
      Shift(body, line, tail, k);
    }
  }

  /** One line: either its action is sent at once or it is kept for later. */
  lemma OneLine(s: State, body: seq<Text>, lines: seq<Text>) returns (body': seq<Text>)
    requires Holds(s, body) && lines != []
    ensures var t := Next(s, Typed(lines[0]));
            Holds(t, body') && t.sent + Meaning(t, body', lines[1..]) == s.sent + Meaning(s, body, lines)
  {
    var line, tail := lines[0], lines[1..];
    body' := body;
    BeginIsNotEnd();
    if s.listening && !IsCommand(line) {
      BlockAppend(body, line);
      if s.buffering {
        body' := body + [line];
        InBlockKeeps(body, lines);
      }
    } else if s.listening {
      CommandNames(line);
      assert FirstCommand(lines) == 0;
      if line == Ascii("/begin") && !s.buffering {
        body' := [];
      } else if line == Ascii("/end") && s.buffering {
        assert body + lines[..0] == body;
      }
    }
  }

  lemma NothingTyped(s: State, body: seq<Text>)
    ensures Meaning(s, body, []) == []
  {
    assert FirstCommand([]) == 0;
  }

  lemma ConnectionKeeps(s: State, body: seq<Text>, ok: bool)
    requires Holds(s, body)
    ensures var t := Next(s, Connection(ok)); Holds(t, body) && t == s.(receives := t.receives)
  {}

  lemma {:induction false} Silent(s: State, es: seq<Event>)
    requires !s.listening
    ensures Run(s, es).sent == s.sent && Run(s, es).connects == s.connects && !Run(s, es).listening
    decreases |es|
  {
    if es != [] {
      Silent(Next(s, es[0]), es[1..]);
    }
  }

  lemma InputEnds(s: State, es: seq<Event>)
    requires es != [] && es[0].InputFails?
    ensures Run(s, es).sent == s.sent && Run(s, es).connects == s.connects
  {
    Silent(Next(s, es[0]), es[1..]);
  }

  lemma {:induction false} Refines(s: State, body: seq<Text>, es: seq<Event>)
    requires Holds(s, body)
    ensures Run(s, es).sent == s.sent + Meaning(s, body, LinesOf(es))
    decreases |es|
  {
    hide Next, Holds;
    if es == [] {
      NothingTyped(s, body);
    } else if es[0].InputFails? {
      NothingTyped(s, body);
      InputEnds(s, es);
    } else if es[0].Typed? {
      var lines := LinesOf(es);
      assert lines[0] == es[0].line && lines[1..] == LinesOf(es[1..]);
      var body' := OneLine(s, body, lines);
      Refines(Next(s, es[0]), body', es[1..]);
    } else {
      ConnectionKeeps(s, body, es[0].ok);
      assert [] + LinesOf(es[1..]) == LinesOf(es[1..]);
      Refines(Next(s, es[0]), body, es[1..]);
    }
  }

  /** Until a connection is there nothing is sent and nothing is kept. */
  ghost predicate Offline(s: State) {
    !s.connected && s.sent == [] && s.buffer == []
  }

  lemma {:induction false} OfflineRun(s: State, es: seq<Event>)
    requires Offline(s) && Connection(true) !in es
    ensures Offline(Run(s, es))
    decreases |es|
  {
    if es != [] {
      assert es[0] != Connection(true);
      OfflineRun(Next(s, es[0]), es[1..]);
    }
  }

  lemma {:induction false} RunAppend(s: State, es: seq<Event>, fs: seq<Event>)
    ensures Run(s, es + fs) == Run(Run(s, es), fs)
    decreases |es|
  {
    if es == [] {
      assert es + fs == fs;
    } else {
      assert (es + fs)[1..] == es[1..] + fs;
      RunAppend(Next(s, es[0]), es[1..], fs);
    }
  }

  /**
   * The whole client: nothing is sent before the connection is up, and what is
   * sent afterwards is what the block structure of the lines that follow stands
   * for. The connection may come up inside a block that was begun before.
   */
  lemma SendsWhatLinesMean(before: seq<Event>, after: seq<Event>)
    requires Connection(true) !in before
    ensures var s := Run(INIT, before);
            s.sent == [] && s.buffer == []
            && Run(INIT, before + [Connection(true)] + after).sent == Meaning(s, [], LinesOf(after))
  {
    OfflineRun(INIT, before);
    var s := Run(INIT, before);
    RunAppend(INIT, before, [Connection(true)] + after);
    assert before + [Connection(true)] + after == before + ([Connection(true)] + after);
    var up := Next(s, Connection(true));
    assert ([Connection(true)] + after)[1..] == after;
    assert NonEmpty([]) == [] && JoinLines([]) == [];
    Refines(up, [], after);
    assert Meaning(up, [], LinesOf(after)) == Meaning(s, [], LinesOf(after));
    assert [] + Meaning(s, [], LinesOf(after)) == Meaning(s, [], LinesOf(after));
  }

  /** More lines never take back an action. */
  lemma {:induction false} ActionsGrow(lines: seq<Text>, more: seq<Text>)
    requires lines <= more
    ensures Actions(lines) <= Actions(more)
    decreases |lines|, 1
  {
    if lines != [] {
      if lines[0] == [] || !IsCommand(lines[0]) {
        ActionsGrow(lines[1..], more[1..]);
      } else if lines[0] == Ascii("/begin") {
        InBlockGrows([], lines[1..], more[1..]);
      }
    }
  }

  lemma FirstCommandStays(lines: seq<Text>, more: seq<Text>)
    requires lines <= more && FirstCommand(lines) < |lines|
    ensures FirstCommand(more) == FirstCommand(lines)
  {
    var k := FirstCommand(lines);
    assert forall j :: 0 <= j <= k ==> more[j] == lines[j];
  }

  lemma {:induction false} InBlockGrows(body: seq<Text>, lines: seq<Text>, more: seq<Text>)
    requires lines <= more
    ensures InBlock(body, lines) <= InBlock(body, more)
    decreases |lines|, 0
  {
    var k := FirstCommand(lines);
    if k < |lines| {
      FirstCommandStays(lines, more);
      assert lines[k] == more[k] && lines[..k] == more[..k];
      ActionsGrow(lines[k + 1..], more[k + 1..]);
    }
  }

  lemma MeaningGrows(s: State, lines: seq<Text>, more: seq<Text>)
    requires lines <= more
    ensures Meaning(s, [], lines) <= Meaning(s, [], more)
  {
    ActionsGrow(lines, more);
    InBlockGrows([], lines, more);
  }

  /** The buffer holds something only inside a block, in every run. */
  lemma {:induction false} BufferOnlyInBlock(s: State, es: seq<Event>)
    requires !s.buffering ==> s.buffer == []
    ensures var t := Run(s, es); !t.buffering ==> t.buffer == []
    decreases |es|
  {
    if es != [] {
      BufferOnlyInBlock(Next(s, es[0]), es[1..]);
    }
  }

  lemma OneConnect(s: State, e: Event)
    ensures var t := Next(s, e);
            t.connects == s.connects
            || (!s.connected && e.Typed?
                && exists c :: t.connects == s.connects + [c] && e.line == Ascii("/connect ") + c)
  {
    var t := Next(s, e);
    if e.Typed? && t.connects != s.connects {
      var c := e.line[1..][8..];
      assert t.connects == s.connects + [c];
      assert e.line[1..] == Ascii("connect ") + c;
      assert Ascii("/connect ") == [SLASH] + Ascii("connect ");
      assert e.line == [SLASH] + e.line[1..];
    }
  }

  /** Connections are only asked for by name, in the order of the lines, and never once one is up. */
  lemma {:induction false} ConnectsComeFromLines(s: State, es: seq<Event>)
    ensures s.connects <= Run(s, es).connects
    ensures s.connected ==> Run(s, es).connects == s.connects
    ensures forall k :: |s.connects| <= k < |Run(s, es).connects| ==>
              Ascii("/connect ") + Run(s, es).connects[k] in LinesOf(es)
    decreases |es|
  {
    if es != [] && es[0].InputFails? {
      InputEnds(s, es);
    } else if es != [] {
      var t := Next(s, es[0]);
      OneConnect(s, es[0]);
      ConnectsComeFromLines(t, es[1..]);
      forall k | |s.connects| <= k < |Run(s, es).connects|
        ensures Ascii("/connect ") + Run(s, es).connects[k] in LinesOf(es)
      {
        if k < |t.connects| {
          assert Run(s, es).connects[k] == t.connects[k];
        }
      }
    }
  }

  /** The lines that the code accepts in state `s`; every other line makes it throw. */
  predicate InPlace(s: State, line: Text) {
    || line == []
    || (!IsCommand(line) && s.connected)
    || (line == Ascii("/begin") && !s.buffering)
    || (line == Ascii("/end") && s.buffering && s.connected)
    || (Ascii("/connect ") <= line && !s.connected)
  }

  lemma ConnectName(line: Text)
    requires IsCommand(line)
    ensures Ascii("connect ") <= line[1..] <==> Ascii("/connect ") <= line
    ensures Ascii("/connect ") <= line ==> line != Ascii("/begin") && line != Ascii("/end")
  {
    assert Ascii("/connect ") == [SLASH] + Ascii("connect ");
    assert line == [SLASH] + line[1..];
  }

  lemma CommandsStartWithSlash()
    ensures IsCommand(Ascii("/begin")) && IsCommand(Ascii("/end")) && IsCommand(Ascii("/connect "))
  {}

  /** What a line out of place throws. */
  function Complaint(s: State, line: Text): Error {
    if IsCommand(line) && s.buffering && line == Ascii("/begin") then Busy
    else if IsCommand(line) && s.connected && Ascii("/connect ") <= line then Busy
    else if !s.buffering && line == Ascii("/end") then NotBuffering
    else if IsCommand(line) && line != Ascii("/end") then Unsupported
    else NotConnected
  }

  /**
   * Exactly the lines out of place throw, and what they throw. They change nothing,
   * but that an `/end` without a connection drops the block.
   */
  lemma ThrowsIffOutOfPlace(s: State, line: Text)
    ensures Executed(s, line).error == if InPlace(s, line) then None else Some(Complaint(s, line))
    ensures !InPlace(s, line) ==>
              Executed(s, line).state ==
              if s.buffering && line == Ascii("/end") then s.(buffering := false, buffer := []) else s
    ensures Executed(s, line).state.listening == s.listening
  {
    hide Ascii;
    BeginIsNotEnd();
    CommandsStartWithSlash();
    if IsCommand(line) {
      CommandNames(line);
      ConnectName(line);
    }
  }

  /** Every line of the run is in place in the state that it meets, and the input does not fail. */
  predicate AllInPlace(s: State, es: seq<Event>) {
    forall k :: 0 <= k < |es| ==> !es[k].InputFails? && (es[k].Typed? ==> InPlace(Run(s, es[..k]), es[k].line))
  }

  /** Reading goes on exactly as long as that is so, over every run. */
  lemma {:induction false} ReadsOnIff(s: State, es: seq<Event>)
    requires s.listening
    ensures Run(s, es).listening <==> AllInPlace(s, es)
    decreases |es|
  {
    hide InPlace, Executed;
    if es != [] {
      var n := |es| - 1;
      var front, last := es[..n], es[n];
      ReadsOnIff(s, front);
      RunAppend(s, front, [last]);
      assert front + [last] == es;
      assert Run(Run(s, front), [last]) == Next(Run(s, front), last);
      assert forall k :: 0 <= k < n ==> es[..k] == front[..k] && es[k] == front[k];
      assert AllInPlace(s, es) <==>
             AllInPlace(s, front) && !last.InputFails? && (last.Typed? ==> InPlace(Run(s, front), last.line));
      if last.Typed? {
        ThrowsIffOutOfPlace(Run(s, front), last.line);
      }
    }
  }

  // ---- what the client asks of its socket

  /** How many connection attempts ended. */
  function Attempts(es: seq<Event>): nat {
    if es == [] then 0 else (if es[0].Connection? then 1 else 0) + Attempts(es[1..])
  }

  lemma OneAttempt(s: State, e: Event)
    ensures Next(s, e).receives == s.receives + (if e.Connection? then 1 else 0)
    ensures Next(s, e).connected <==> s.connected || e == Connection(true)
  {
    hide Ascii;
  }

  /** The socket is told to receive after every attempt, and the client is connected after the first good one. */
  lemma {:induction false} ReceivesAfterAttempts(s: State, es: seq<Event>)
    ensures Run(s, es).receives == s.receives + Attempts(es)
    ensures Run(s, es).connected <==> s.connected || Connection(true) in es
    decreases |es|
  {
    if es != [] {
      OneAttempt(s, es[0]);
      hide Next;
      ReceivesAfterAttempts(Next(s, es[0]), es[1..]);
      assert es == [es[0]] + es[1..];
    }
  }

  /** The servers named in `/connect` lines, typed while lines were read and before a connection was up. */
  function Wished(es: seq<Event>): seq<Text> {
    if es == [] then []
    else
      var before, e := es[..|es| - 1], es[|es| - 1];
      Wished(before) +
      if e.Typed? && Ascii("/connect ") <= e.line && AllInPlace(INIT, before) && Connection(true) !in before
      then [e.line[9..]] else []
  }

  lemma OneWish(s: State, e: Event)
    ensures Next(s, e).connects == s.connects +
            if e.Typed? && Ascii("/connect ") <= e.line && s.listening && !s.connected then [e.line[9..]] else []
  {
    BeginIsNotEnd();
    assert s.connects + [] == s.connects;
    CommandsStartWithSlash();
    if e.Typed? && IsCommand(e.line) {
      ConnectName(e.line);
      if Ascii("/connect ") <= e.line {
        assert e.line[1..][8..] == e.line[9..];
      }
    }
  }

  /** Over every run, exactly these are asked for, in that order. */
  lemma {:induction false} ConnectsAreWished(es: seq<Event>)
    ensures Run(INIT, es).connects == Wished(es)
    decreases |es|
  {
    if es != [] {
      var before, e := es[..|es| - 1], es[|es| - 1];
      assert before + [e] == es;
      RunAppend(INIT, before, [e]);
      assert Run(Run(INIT, before), [e]) == Next(Run(INIT, before), e) by {
        assert [e][1..] == [];
      }
      hide Run, Next, AllInPlace, Ascii;
      ConnectsAreWished(before);
      ReadsOnIff(INIT, before);
      ReceivesAfterAttempts(INIT, before);
      OneWish(Run(INIT, before), e);
    }
  }

  /** A line out of place silences the client for good: it sends nothing, nor does anything typed after it. */
  lemma ErrorSilences(s: State, line: Text, es: seq<Event>)
    requires s.listening && !InPlace(s, line)
    ensures Run(s, [Typed(line)] + es).sent == s.sent && !Run(s, [Typed(line)] + es).listening
  {
    assert ([Typed(line)] + es)[1..] == es;
    ThrowsIffOutOfPlace(s, line);
    Silent(Next(s, Typed(line)), es);
  }

  /** The shortest such run: one word typed before there is a connection. */
  lemma FirstWordSilences()
    ensures !AllInPlace(INIT, [Typed(Ascii("hi"))]) && !Run(INIT, [Typed(Ascii("hi"))]).listening
  {
    ReadsOnIff(INIT, [Typed(Ascii("hi"))]);
    assert Ascii("hi")[0] as int == 'h' as int;
    ErrorSilences(INIT, Ascii("hi"), []);
    assert [Typed(Ascii("hi"))] + [] == [Typed(Ascii("hi"))];
  }

  // ---- the action of a block

  /** A block keeps its lines apart: splitting its action gives back the non-empty ones. */
  lemma BlockSplits(body: seq<Text>)
    requires forall l :: l in body ==> Fits(Line, l)
    ensures var r := Parse(Line, Block(body)); Contents(r.messages) == NonEmpty(body) && r.rest == []
  {
    NonEmptyMembers(body);
    SplitUndoesJoin(NonEmpty(body));
  }

  /** On the telnet socket a block arrives as one message exactly when no line of it ends with a carriage return. */
  lemma BlockFitsTelnet(body: seq<Text>)
    requires forall l :: l in body ==> Fits(Line, l)
    ensures Fits(Telnet, Block(body)) <==> forall l :: l in body ==> !EndsWithCr(l)
  {
    var lines := NonEmpty(body);
    NonEmptyMembers(body);
    forall i | 0 <= i < |lines|
      ensures Fits(Telnet, lines[i])
    {
      assert lines[i] in body;
    }
    JoinFitsTelnet(lines);
    forall l | l in body && l != []
      ensures exists i :: 0 <= i < |lines| && lines[i] == l
    {
      assert l in lines;
    }
  }

  /** The documented action of a block: every line, without the last end of line. */
  function Documented(body: seq<Text>): Text {
    if body == [] then [] else var c := JoinLines(body); c[..|c| - 1]
  }

  /** All lines but the last are not empty, and the last one is. */
  predicate OnlyLastEmpty(body: seq<Text>) {
    body != [] && body[|body| - 1] == [] && forall i :: 0 <= i < |body| - 1 ==> body[i] != []
  }

  lemma {:induction false} NonEmptyIsAll(body: seq<Text>)
    requires [] !in body
    ensures NonEmpty(body) == body
  {
    if body != [] {
      assert body[0] in body;
      NonEmptyIsAll(body[1..]);
    }
  }

  lemma {:induction false} JoinLength(body: seq<Text>)
    ensures |JoinLines(body)| - |Block(body)| == |body| - |NonEmpty(body)| >= 0
  {
    if body != [] {
      JoinLength(body[1..]);
      var rest := NonEmpty(body[1..]);
      assert [] + rest == rest && ([body[0]] + rest)[1..] == rest;
    }
  }

  lemma JoinEnds(body: seq<Text>)
    requires body != []
    ensures var c := JoinLines(body); |c| > 0 && c[|c| - 1] == LF
    ensures body[|body| - 1] != [] ==> var c := JoinLines(body); var l := body[|body| - 1];
                                        |c| > 1 && c[|c| - 2] == l[|l| - 1]
  {
    var front, l := body[..|body| - 1], body[|body| - 1];
    assert body == front + [l];
    JoinAppend(front, [l]);
    assert JoinLines([l]) == l + [LF] + [];
  }

  lemma {:induction false} NoneDropped(body: seq<Text>)
    requires |NonEmpty(body)| == |body|
    ensures [] !in body
  {
    if body != [] {
      JoinLength(body[1..]);
      NoneDropped(body[1..]);
      assert body == [body[0]] + body[1..];
    }
  }

  lemma OneEmptyIsLast(body: seq<Text>)
    requires body != [] && body[|body| - 1] == [] && |body| - |NonEmpty(body)| == 1
    ensures OnlyLastEmpty(body)
  {
    var front := body[..|body| - 1];
    assert body == front + [[]];
    NonEmptyAppend(front, [[]]);
    assert NonEmpty([[]]) == [];
    NoneDropped(front);
  }

  lemma LastEmptyAgrees(body: seq<Text>)
    requires OnlyLastEmpty(body)
    ensures Block(body) == Documented(body)
  {
    var front := body[..|body| - 1];
    assert body == front + [[]];
    NonEmptyIsAll(front);
    NonEmptyAppend(front, [[]]);
    JoinAppend(front, [[]]);
    assert JoinLines([[]]) == [LF];
    assert NonEmpty([[]]) == [] && front + [] == front;
    assert (JoinLines(front) + [LF])[..|JoinLines(front)|] == JoinLines(front);
  }

  lemma AgreesOnlyThen(body: seq<Text>)
    requires body != [] && Fits(Line, body[|body| - 1])
    requires Block(body) == Documented(body)
    ensures OnlyLastEmpty(body)
  {
    JoinLength(body);
    JoinEnds(body);
    if body[|body| - 1] == [] {
      OneEmptyIsLast(body);
    } else if NonEmpty(body) != [] {
      JoinEnds(NonEmpty(body));
    }
  }

  /**
   * The code keeps the last end of line and drops empty lines, against the
   * documentation. The two agree exactly on the blocks whose only empty line is
   * the last one, and on the empty block.
   */
  lemma DocumentedIff(body: seq<Text>)
    requires forall l :: l in body ==> Fits(Line, l)
    ensures Block(body) == Documented(body) <==> body == [] || OnlyLastEmpty(body)
  {
    hide Fits;
    if OnlyLastEmpty(body) {
      LastEmptyAgrees(body);
    } else if body != [] && Block(body) == Documented(body) {
      AgreesOnlyThen(body);
    }
  }

  // ---- the object

  class Application {
    var bufferingMode: bool
    var commandBuffer: Text
    var connected: bool
    var listening: bool
    ghost var sent: seq<Text>
    ghost var connects: seq<Text>
    ghost var receives: nat

    ghost function View(): State
      reads this
    {
      State(bufferingMode, commandBuffer, connected, listening, sent, connects, receives)
    }

    constructor ()
      ensures View() == INIT
    {
      bufferingMode, commandBuffer, connected, listening := false, [], false, true;
      sent, connects, receives := [], [], 0;
    }

    /** What the receiver of standard input brings, which re-arms only after a line that threw nothing. */
    method Receive(line: Option<Text>)
      modifies this
      ensures View() == Next(old(View()), if line.Some? then Typed(line.value) else InputFails)
    {
      if listening {
        var error := Execute(line);
        if line.None? || error.Some? {
          listening := false;
        }
      }
    }

    /** `None`: the receiver reports an error, and there is no message. */
    method Execute(message: Option<Text>) returns (error: Option<Error>)
      modifies this
      ensures Outcome(View(), error) ==
              if message.Some? then Executed(old(View()), message.value) else Outcome(old(View()), None)
    {
      if message.None? {
        return None;
      }
      error := None;
      var command := message.value;
      if command == [] {
      } else if command[0] == SLASH {
        error := ExecuteClient(command[1..]);
      } else {
        error := ExecuteServer(command);
      }
    }

    method ExecuteClient(command: Text) returns (error: Option<Error>)
      modifies this
      ensures Outcome(View(), error) == Commanded(old(View()), command)
    {
      if command == Ascii("begin") {
        if bufferingMode {
          return Some(Busy);
        }
        bufferingMode := true;
        return None;
      } else if command == Ascii("end") {
        if !bufferingMode {
          return Some(NotBuffering);
        }
        bufferingMode := false;
        var cmd := commandBuffer;
        commandBuffer := [];
        error := ExecuteServer(cmd);
      } else if Ascii("connect ") <= command {
        if connected {
          return Some(Busy);
        }
        Connect(command[8..]);
        return None;
      } else {
        return Some(Unsupported);
      }
    }

    method ExecuteServer(command: Text) returns (error: Option<Error>)
      modifies this
      ensures Outcome(View(), error) == Served(old(View()), command)
    {
      if !connected {
        return Some(NotConnected);
      }
      if bufferingMode {
        commandBuffer := commandBuffer + command;
        commandBuffer := commandBuffer + [LF];
        return None;
      }
      sent := sent + [command];
      return None;
    }

    method Connect(server: Text)
      requires !connected
      modifies this`connects
      ensures connects == old(connects) + [server]
    {
      connects := connects + [server];
    }

    /** The socket starts to receive even after a failed attempt. */
    method AsioCallbackSocketConnect(failed: bool)
      modifies this
      ensures View() == Next(old(View()), Connection(!failed))
    {
      if !failed {
        connected := true;
      }
      receives := receives + 1;
    }

    /** One turn of the event loop: the object does what `Next` says, so every run above is its run. */
    method Dispatch(e: Event)
      modifies this
      ensures View() == Next(old(View()), e)
    {
      match e {
        case Typed(line) => Receive(Some(line));
        case InputFails => Receive(None);
        case Connection(ok) => AsioCallbackSocketConnect(!ok);
      }
    }
  }
}
