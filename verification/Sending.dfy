/**
 * `tsender`: a queue of messages with at most one write under way. The state
 * also keeps what an observer of the stream and of the send handler has seen.
 */
module Sending {
  import opened Bytes
  import opened Messages
  import Ids

  /** One call of the send handler. */
  datatype Completion = Completion(message: Message, failed: bool, bytes: nat)

  /** A message whose write was started, with the protocol that encoded it. */
  datatype Started = Started(protocol: Protocol, message: Message)

  datatype State = State(
    protocol: Protocol,
    id: uint32,                // id_
    made: seq<Message>,        // every action that ever got an id in send_action
    taken: seq<Message>,       // actions that have their id and are not posted yet, one for each such thread
    posted: seq<Message>,      // send_message calls waiting on the strand
    queue: seq<Message>,       // messages_
    buffer: seq<byte>,         // send_buffer_
    outstanding: nat,          // asynchronous writes not yet completed
    written: nat,              // octets of the buffer the current write has put on the wire
    total: nat,                // total_bytes_transferred_
    handled: seq<Completion>,  // send handler calls so far
    asked: seq<Message>,       // everything ever posted
    started: seq<Started>,     // the writes ever started
    wire: seq<byte>            // everything ever put on the wire
  )

  function Init(p: Protocol): State {
    State(p, 0, [], [], [], [], [], 0, 0, 0, [], [], [], [])
  }

  // ---- the code

  function Post(s: State, m: Message): State {
    s.(posted := s.posted + [m], asked := s.asked + [m])
  }

  /** The first half of `send_action`: the action has its id. */
  function Asked(s: State, contents: seq<byte>): State {
    var id := Ids.Successor(s.id);
    s.(id := id, made := s.made + [Message(Action, id, contents)], taken := s.taken + [Message(Action, id, contents)])
  }

  function Without<T>(s: seq<T>, j: nat): seq<T>
    requires j < |s|
  {
    s[..j] + s[j + 1..]
  }

  /** The second half: one of the threads posts its action. */
  function PostTaken(s: State, j: nat): State
    requires j < |s.taken|
  {
    Post(s.(taken := Without(s.taken, j)), s.taken[j])
  }

  function Answered(s: State, id: uint32, contents: seq<byte>): State {
    Post(s, Message(Reply, id, contents))
  }

  /** `send_queue_message`: the encoding goes behind whatever a failed write left in the buffer. */
  function StartFront(s: State): State
    requires s.queue != []
  {
    s.(buffer := s.buffer + Encode(s.protocol, s.queue[0]),
       outstanding := s.outstanding + 1,
       written := 0,
       started := s.started + [Started(s.protocol, s.queue[0])])
  }

  function Queued(s: State, m: Message): State {
    var t := s.(queue := s.queue + [m]);
    if s.queue == [] then StartFront(t) else t
  }

  /** The write of the front message is over: the handler hears of it and it leaves the queue. */
  function Retired(s: State, failed: bool, n: nat): State
    requires s.queue != [] && n <= |s.buffer| && s.outstanding > 0
  {
    s.(buffer := s.buffer[n..], outstanding := s.outstanding - 1, written := 0, total := s.total + n,
       handled := s.handled + [Completion(s.queue[0], failed, n)], queue := s.queue[1..])
  }

  /** `send_queue_message_handler`, behind `async_write` consuming the octets it reports. */
  function HandleWritten(s: State, failed: bool, n: nat): State
    requires s.queue != [] && n <= |s.buffer| && s.outstanding > 0
  {
    var t := Retired(s, failed, n);
    if t.queue == [] then t else StartFront(t)
  }

  // ---- the strand and the stream

  /**
   * `Ask`: a thread takes an id for an action. `PostAsked`: one of those threads
   * posts its action. `Strand`: the strand runs the first posted `send_message`. `Write`: the
   * stream takes some octets. `Done`: the write completes, either with
   * everything written or, failed, after any part of it. `Switch`: `set_protocol`.
   */
  datatype Event =
    | Ask(contents: seq<byte>)
    | PostAsked(j: nat)
    | Answer(id: uint32, contents: seq<byte>)
    | Strand
    | Write(n: nat)
    | Done(failed: bool)
    | Switch(protocol: Protocol)

  predicate Enabled(s: State, e: Event) {
    match e
    case PostAsked(j) => j < |s.taken|
    case Strand => s.posted != []
    case Write(n) => s.outstanding > 0 && 0 < n <= |s.buffer| - s.written
    case Done(failed) => s.outstanding > 0 && (!failed ==> s.written == |s.buffer|)
    case _ => true
  }

  /** Every event in a reachable state finds a front message; `Good` below says so. */
  predicate Safe(s: State) {
    s.written <= |s.buffer| && (s.outstanding > 0 ==> s.queue != [])
  }

  function Next(s: State, e: Event): State
    requires Safe(s) && Enabled(s, e)
  {
    match e
    case Ask(contents) => Asked(s, contents)
    case PostAsked(j) => PostTaken(s, j)
    case Answer(id, contents) => Answered(s, id, contents)
    case Strand => Queued(s.(posted := s.posted[1..]), s.posted[0])
    case Write(n) => s.(written := s.written + n, wire := s.wire + s.buffer[s.written..s.written + n])
    case Done(failed) => HandleWritten(s, failed, s.written)
    case Switch(p) => s.(protocol := p)
  }

  // ---- the invariant

  function Octets(started: seq<Started>): seq<seq<byte>> {
    seq(|started|, i requires 0 <= i < |started| => Encode(started[i].protocol, started[i].message))
  }

  function MessagesOf(started: seq<Started>): seq<Message> {
    seq(|started|, i requires 0 <= i < |started| => started[i].message)
  }

  function Handled(handled: seq<Completion>): seq<Message> {
    seq(|handled|, i requires 0 <= i < |handled| => handled[i].message)
  }

  /** What the send handler was told in all. */
  function Reported(handled: seq<Completion>): nat {
    if handled == [] then 0 else Reported(handled[..|handled| - 1]) + handled[|handled| - 1].bytes
  }

  /** A write is outstanding exactly while the queue holds a message, and never two. */
  predicate SingleWriter(s: State) {
    s.outstanding == (if s.queue == [] then 0 else 1)
  }

  /** Every message posted is handled, queued or with the strand, in the order of posting; the front one is written. */
  ghost predicate InOrder(s: State) {
    && s.asked == Handled(s.handled) + s.queue + s.posted
    && MessagesOf(s.started) == Handled(s.handled) + s.queue[..if s.queue == [] then 0 else 1]
  }

  /** The wire, followed by what the buffer still holds, is all the encodings started so far. */
  ghost predicate Conserved(s: State) {
    && s.written <= |s.buffer|
    && (s.queue == [] ==> s.written == 0)
    && s.wire + s.buffer[s.written..] == Concat(Octets(s.started))
    && s.total + s.written == |s.wire|
    && s.total == Reported(s.handled)
  }

  ghost predicate Good(s: State) {
    SingleWriter(s) && InOrder(s) && Conserved(s)
  }

  lemma GoodInit(p: Protocol)
    ensures Good(Init(p))
  {}

  lemma StartConserves(s: State)
    requires s.queue != [] && s.written == 0 && Conserved(s)
    ensures Conserved(StartFront(s))
  {
    hide Encode;
    var e := Encode(s.protocol, s.queue[0]);
    var t := StartFront(s);
    assert Octets(t.started) == Octets(s.started) + [e];
    ConcatAppend(Octets(s.started), [e]);
    assert Concat([e]) == e + [];
    calc {
      t.wire + t.buffer[0..];
      s.wire + (s.buffer + e);
      s.wire + s.buffer[0..] + e;
      Concat(Octets(t.started));
    }
  }

  lemma StartInOrder(s: State)
    requires s.queue != [] && s.asked == Handled(s.handled) + s.queue + s.posted
    requires MessagesOf(s.started) == Handled(s.handled)
    ensures InOrder(StartFront(s))
  {}

  lemma KeepsStrand(s: State)
    requires Good(s) && Enabled(s, Strand)
    ensures Good(Next(s, Strand))
  {
    hide Encode;
    var m := s.posted[0];
    var t := s.(posted := s.posted[1..], queue := s.queue + [m]);
    assert [m] + s.posted[1..] == s.posted;
    assert Handled(t.handled) + t.queue + t.posted == Handled(s.handled) + s.queue + s.posted;
    if s.queue == [] {
      StartConserves(t);
      StartInOrder(t);
    } else {
      assert t.queue[..1] == s.queue[..1];
    }
  }

  lemma KeepsWrite(s: State, n: nat)
    requires Good(s) && Enabled(s, Write(n))
    ensures Good(Next(s, Write(n)))
  {
    hide Octets, MessagesOf, Handled, Reported;
    var b, tail := s.buffer[s.written..s.written + n], s.buffer[s.written + n..];
    assert s.buffer[s.written..] == b + tail;
    assert s.wire + b + tail == s.wire + (b + tail);
  }

  lemma RetireConserves(s: State, failed: bool)
    requires s.queue != [] && s.outstanding > 0 && Conserved(s)
    ensures Conserved(Retired(s, failed, s.written))
  {}

  lemma RetireInOrder(s: State, failed: bool, n: nat)
    requires s.queue != [] && s.outstanding > 0 && n <= |s.buffer| && InOrder(s)
    ensures var t := Retired(s, failed, n);
            t.asked == Handled(t.handled) + t.queue + t.posted && MessagesOf(t.started) == Handled(t.handled)
  {}

  lemma KeepsDone(s: State, failed: bool)
    requires Good(s) && Enabled(s, Done(failed))
    ensures Good(Next(s, Done(failed)))
  {
    hide Encode, Octets, MessagesOf, Handled, Reported;
    RetireConserves(s, failed);
    RetireInOrder(s, failed, s.written);
    var t := Retired(s, failed, s.written);
    if t.queue != [] {
      StartConserves(t);
      StartInOrder(t);
    }
  }

  lemma Keeps(s: State, e: Event)
    requires Good(s) && Enabled(s, e)
    ensures Good(Next(s, e))
  {
    match e {
      case Strand => KeepsStrand(s);
      case Write(n) => KeepsWrite(s, n);
      case Done(failed) => KeepsDone(s, failed);
      case _ =>
    }
  }

  // ---- runs

  /** `Safe` rules nothing out: `SenderIsSound` says that every run ends in a safe state. */
  predicate RunOk(s: State, es: seq<Event>)
    decreases |es|
  {
    es == [] || (Safe(s) && Enabled(s, es[0]) && RunOk(Next(s, es[0]), es[1..]))
  }

  function Run(s: State, es: seq<Event>): State
    requires RunOk(s, es)
    decreases |es|
  {
    if es == [] then s else Run(Next(s, es[0]), es[1..])
  }

  lemma {:induction false} KeepsRun(s: State, es: seq<Event>)
    requires Good(s) && RunOk(s, es)
    ensures Good(Run(s, es))
    decreases |es|
  {
    hide Good, Next;
    if es != [] {
      Keeps(s, es[0]);
      KeepsRun(Next(s, es[0]), es[1..]);
    }
  }

  lemma FrontIsWritten(s: State)
    requires InOrder(s) && s.queue != []
    ensures s.started != [] && s.started[|s.started| - 1].message == s.queue[0]
  {
    var ms := MessagesOf(s.started);
    assert ms[|s.handled|] == s.queue[0] && |ms| == |s.handled| + 1;
  }

  /** Byte conservation and the single writer, over every run, failed and partial writes included. */
  lemma SenderIsSound(p: Protocol, es: seq<Event>)
    requires RunOk(Init(p), es)
    ensures var s := Run(Init(p), es);
            SingleWriter(s) && Safe(s)
            && s.wire + s.buffer[s.written..] == Concat(Octets(s.started))
            && s.total + s.written == |s.wire| && s.total == Reported(s.handled)
            && (s.queue != [] ==> s.started != [] && s.started[|s.started| - 1].message == s.queue[0])
  {
    hide Run, RunOk, Octets, Init;
    GoodInit(p);
    KeepsRun(Init(p), es);
    if Run(Init(p), es).queue != [] {
      FrontIsWritten(Run(Init(p), es));
    }
  }

  /** The send handler hears of every message once, in the order of posting, whether its write failed or not. */
  lemma HandlerInOrder(p: Protocol, es: seq<Event>)
    requires RunOk(Init(p), es)
    ensures var s := Run(Init(p), es);
            Handled(s.handled) <= s.asked && |s.asked| == |s.handled| + |s.queue| + |s.posted|
  {
    hide Init, Run, RunOk, Conserved, SingleWriter;
    GoodInit(p);
    KeepsRun(Init(p), es);
  }

  /** No message is on its way to the wire. */
  predicate Idle(s: State) {
    s.queue == [] && s.posted == [] && s.taken == []
  }

  /** Without a further request the rest of a failed last write stays where it is. */
  lemma {:induction false} LeftoverWaits(s: State, es: seq<Event>)
    requires Good(s) && RunOk(s, es) && Idle(s)
    requires forall i :: 0 <= i < |es| ==> !es[i].Ask? && !es[i].Answer?
    ensures var t := Run(s, es); Idle(t) && t.buffer == s.buffer && t.wire == s.wire && t.asked == s.asked
    decreases |es|
  {
    if es != [] {
      assert es[0].Switch?;
      Keeps(s, es[0]);
      LeftoverWaits(Next(s, es[0]), es[1..]);
    }
  }

  // ---- the numbers of actions

  /** The actions among some messages. */
  function Actions(ms: seq<Message>): seq<Message> {
    if ms == [] then []
    else
      var last := ms[|ms| - 1];
      Actions(ms[..|ms| - 1]) + if last.kind.Action? then [last] else []
  }

  function Bag(ms: seq<Message>): multiset<Message> {
    multiset(Actions(ms))
  }

  lemma ActionsMore(ms: seq<Message>, m: Message)
    ensures Actions(ms + [m]) == Actions(ms) + if m.kind.Action? then [m] else []
  {
    assert (ms + [m])[..|ms|] == ms;
  }

  lemma {:induction false} ActionsAppend(a: seq<Message>, b: seq<Message>)
    ensures Actions(a + b) == Actions(a) + Actions(b)
    decreases |b|
  {
    if b == [] {
      assert a + b == a && Actions(a) + [] == Actions(a);
    } else {
      var front, last := b[..|b| - 1], b[|b| - 1];
      assert b == front + [last] && a + b == (a + front) + [last];
      ActionsMore(a + front, last);
      ActionsMore(front, last);
      ActionsAppend(a, front);
      hide Actions;
      Associate(Actions(a), Actions(front), if last.kind.Action? then [last] else []);
    }
  }

  lemma BagAppend(a: seq<Message>, b: seq<Message>)
    ensures Bag(a + b) == Bag(a) + Bag(b)
  {
    hide Actions;
    ActionsAppend(a, b);
  }

  lemma BagOne(m: Message)
    ensures Bag([m]) == if m.kind.Action? then multiset{m} else multiset{}
  {
    ActionsMore([], m);
    assert [] + [m] == [m];
  }

  /** Ids are taken in order from one on, modulo their number. */
  predicate Numbered(s: State) {
    && (forall k :: 0 <= k < |s.made| ==> s.made[k].kind.Action? && s.made[k].id as int == 1 + k % Ids.PERIOD)
    && s.id as int == if s.made == [] then 0 else 1 + (|s.made| - 1) % Ids.PERIOD
  }

  /** Every action that got an id is posted, once, or not yet. */
  ghost predicate Distributed(s: State) {
    && (forall k :: 0 <= k < |s.taken| ==> s.taken[k].kind.Action?)
    && Bag(s.asked) + Bag(s.taken) == multiset(s.made)
  }

  /** And they are posted in the order of their ids. */
  predicate PostedInOrder(s: State) {
    Actions(s.asked) + Actions(s.taken) == s.made
  }

  lemma NextNumber(n: int)
    requires n > 0
    ensures var last := 1 + (n - 1) % Ids.PERIOD;
            1 + n % Ids.PERIOD == if last == Ids.PERIOD then 1 else last + 1
  {
    var q, r := (n - 1) / Ids.PERIOD, (n - 1) % Ids.PERIOD;
    assert n == q * Ids.PERIOD + (r + 1);
  }

  lemma KeepsNumbered(s: State, e: Event)
    requires Numbered(s) && Safe(s) && Enabled(s, e)
    ensures Numbered(Next(s, e))
  {
    hide Encode;
    if e.Ask? && s.made != [] {
      NextNumber(|s.made|);
    }
  }

  lemma PostingDistributes(s: State, j: nat)
    requires Distributed(s) && j < |s.taken|
    ensures Distributed(PostTaken(s, j))
  {
    hide Bag;
    var m, a, b := s.taken[j], s.taken[..j], s.taken[j + 1..];
    assert s.taken == a + [m] + b;
    BagAppend(a + [m], b);
    BagAppend(a, [m]);
    BagAppend(a, b);
    BagAppend(s.asked, [m]);
  }

  lemma FirstAction(m: Message, rest: seq<Message>)
    requires m.kind.Action?
    ensures Actions([m] + rest) == [m] + Actions(rest)
  {
    ActionsAppend([m], rest);
    ActionsMore([], m);
    assert [] + [m] == [m];
  }

  lemma PostingInOrder(s: State)
    requires s.taken != [] && s.taken[0].kind.Action? && PostedInOrder(s)
    ensures PostedInOrder(PostTaken(s, 0))
  {
    var m, rest := s.taken[0], s.taken[1..];
    assert s.taken == [m] + rest && Without(s.taken, 0) == rest;
    hide Without;
    FirstAction(m, rest);
    ActionsMore(s.asked, m);
    hide Actions;
    Associate(Actions(s.asked), [m], Actions(rest));
  }

  lemma OthersKeepNumbers(s: State, e: Event)
    requires Safe(s) && Enabled(s, e) && !e.Ask? && !e.PostAsked?
    ensures var t := Next(s, e); Actions(t.asked) == Actions(s.asked) && t.taken == s.taken && t.made == s.made
  {
    hide Encode;
    if e.Answer? {
      ActionsMore(s.asked, Message(Reply, e.id, e.contents));
      assert Actions(s.asked) + [] == Actions(s.asked);
    }
  }

  lemma AskDistributes(s: State, contents: seq<byte>)
    requires Distributed(s)
    ensures Distributed(Asked(s, contents))
    ensures PostedInOrder(s) ==> PostedInOrder(Asked(s, contents))
  {
    var m := Message(Action, Ids.Successor(s.id), contents);
    ActionsMore(s.taken, m);
    BagAppend(s.taken, [m]);
    BagOne(m);
    hide Actions, Bag;
    Associate(Actions(s.asked), Actions(s.taken), [m]);
  }

  lemma KeepsDistributed(s: State, e: Event)
    requires Distributed(s) && Safe(s) && Enabled(s, e)
    ensures Distributed(Next(s, e))
    ensures PostedInOrder(s) && (e.PostAsked? ==> e.j == 0) ==> PostedInOrder(Next(s, e))
  {
    hide Encode, Actions;
    match e {
      case Ask(contents) =>
        AskDistributes(s, contents);
      case PostAsked(j) =>
        PostingDistributes(s, j);
        if PostedInOrder(s) && j == 0 {
          PostingInOrder(s);
        }
      case _ =>
        hide Next;
        OthersKeepNumbers(s, e);
    }
  }

  /**
   * Over every run ids are taken one by one, and every action that got one is
   * posted once or not yet, none is lost. The actions go out in another order only if
   * a thread overtakes another between taking its id and posting.
   */
  lemma {:induction false} ActionsAreNumbered(s: State, es: seq<Event>)
    requires Numbered(s) && Distributed(s) && RunOk(s, es)
    ensures Numbered(Run(s, es)) && Distributed(Run(s, es))
    ensures PostedInOrder(s) && (forall i :: 0 <= i < |es| && es[i].PostAsked? ==> es[i].j == 0) ==>
              PostedInOrder(Run(s, es))
    decreases |es|
  {
    hide Numbered, Distributed, PostedInOrder, Next;
    if es != [] {
      KeepsNumbered(s, es[0]);
      KeepsDistributed(s, es[0]);
      ActionsAreNumbered(Next(s, es[0]), es[1..]);
    }
  }

  /** Some action was posted out of turn. */
  ghost predicate Overtaken(s: State) {
    exists k :: 0 <= k < |Actions(s.asked)| && k < |s.made| && Actions(s.asked)[k] != s.made[k]
  }

  lemma IdsGrow(s: State, e: Event)
    requires Safe(s) && Enabled(s, e)
    ensures Actions(s.asked) <= Actions(Next(s, e).asked) && s.made <= Next(s, e).made
  {
    hide Encode, Actions;
    match e {
      case PostAsked(j) => ActionsMore(s.asked, s.taken[j]);
      case Answer(id, contents) => ActionsMore(s.asked, Message(Reply, id, contents));
      case _ => assert Next(s, e).asked == s.asked;
    }
  }

  lemma OvertakenStays(s: State, e: Event)
    requires Overtaken(s) && Safe(s) && Enabled(s, e)
    ensures Overtaken(Next(s, e))
  {
    var k :| 0 <= k < |Actions(s.asked)| && k < |s.made| && Actions(s.asked)[k] != s.made[k];
    var t := Next(s, e);
    IdsGrow(s, e);
    assert Actions(t.asked)[k] == Actions(s.asked)[k] && t.made[k] == s.made[k];
  }

  lemma {:induction false} AllActions(ms: seq<Message>)
    requires forall k :: 0 <= k < |ms| ==> ms[k].kind.Action?
    ensures Actions(ms) == ms
  {
    if ms != [] {
      AllActions(ms[..|ms| - 1]);
    }
  }

  lemma DistinctIds(s: State, a: nat, b: nat)
    requires Numbered(s) && a < b < |s.made| && b < a + Ids.PERIOD
    ensures s.made[a] != s.made[b]
  {
    Ids.WithinPeriod(a, b);
  }

  lemma OutOfTurn(a: seq<Message>, b: seq<Message>, j: nat)
    requires 0 < j < |b|
    ensures (a + b)[|a|] == b[0] && (a + b)[|a| + j] == b[j]
  {}

  lemma Overtakes(s: State, j: nat)
    requires Numbered(s) && Distributed(s) && PostedInOrder(s) && 0 < j < |s.taken| <= Ids.PERIOD
    ensures Overtaken(PostTaken(s, j))
  {
    AllActions(s.taken);
    ActionsMore(s.asked, s.taken[j]);
    hide Actions, Bag, Without, Numbered;
    var a, b := Actions(s.asked), Actions(s.taken);
    OutOfTurn(a, b, j);
    DistinctIds(s, |a|, |a| + j);
    assert Actions(PostTaken(s, j).asked)[|a|] == b[j];
  }

  /** At no time are more threads between taking an id and posting than there are ids. */
  predicate FewThreads(s: State, es: seq<Event>)
    requires RunOk(s, es)
    decreases |es|
  {
    |s.taken| <= Ids.PERIOD && (es == [] || FewThreads(Next(s, es[0]), es[1..]))
  }

  lemma {:induction false} OvertakenForever(s: State, es: seq<Event>)
    requires Overtaken(s) && RunOk(s, es)
    ensures Overtaken(Run(s, es))
    decreases |es|
  {
    hide Overtaken, Next;
    if es != [] {
      OvertakenStays(s, es[0]);
      OvertakenForever(Next(s, es[0]), es[1..]);
    }
  }

  lemma {:induction false} OvertakenRun(s: State, es: seq<Event>)
    requires Numbered(s) && Distributed(s) && PostedInOrder(s) && RunOk(s, es) && FewThreads(s, es)
    requires exists i :: 0 <= i < |es| && es[i].PostAsked? && es[i].j != 0
    ensures Overtaken(Run(s, es))
    decreases |es|
  {
    hide Numbered, Distributed, PostedInOrder, Overtaken;
    KeepsNumbered(s, es[0]);
    KeepsDistributed(s, es[0]);
    if es[0].PostAsked? && es[0].j != 0 {
      Overtakes(s, es[0].j);
      OvertakenForever(Next(s, es[0]), es[1..]);
    } else {
      OvertakenRun(Next(s, es[0]), es[1..]);
    }
  }

  /** Actions go out in the order of their ids exactly if no thread overtakes another, however often the ids wrap. */
  lemma InOrderIffNotOvertaken(p: Protocol, es: seq<Event>)
    requires RunOk(Init(p), es) && FewThreads(Init(p), es)
    ensures PostedInOrder(Run(Init(p), es)) <==> forall i :: 0 <= i < |es| && es[i].PostAsked? ==> es[i].j == 0
  {
    assert Actions([]) == [];
    assert Numbered(Init(p)) && Distributed(Init(p)) && PostedInOrder(Init(p));
    hide Run, RunOk, Numbered, Distributed, Actions;
    ActionsAreNumbered(Init(p), es);
    if !(forall i :: 0 <= i < |es| && es[i].PostAsked? ==> es[i].j == 0) {
      OvertakenRun(Init(p), es);
    }
  }

  lemma {:induction false} RunAppend(s: State, es: seq<Event>, fs: seq<Event>)
    requires RunOk(s, es + fs)
    ensures RunOk(s, es) && RunOk(Run(s, es), fs) && Run(Run(s, es), fs) == Run(s, es + fs)
    decreases |es|
  {
    if es == [] {
      assert es + fs == fs;
    } else {
      assert (es + fs)[1..] == es[1..] + fs;
      RunAppend(Next(s, es[0]), es[1..], fs);
    }
  }

  /**
   * A failed write loses nothing by itself: once a later write ends without an
   * error and the queue is empty, all messages asked for are on the wire.
   */
  lemma FailureOnlyDelays(p: Protocol, es: seq<Event>)
    requires RunOk(Init(p), es + [Done(false)])
    requires var s := Run(Init(p), es + [Done(false)]); s.queue == [] && s.posted == []
    ensures var s := Run(Init(p), es + [Done(false)]);
            s.buffer == [] && s.wire == Concat(Octets(s.started)) && MessagesOf(s.started) == s.asked
  {
    RunAppend(Init(p), es, [Done(false)]);
    GoodInit(p);
    KeepsRun(Init(p), es);
    var s := Run(Init(p), es);
    assert Run(s, [Done(false)]) == Next(s, Done(false));
    Keeps(s, Done(false));
    var t := Next(s, Done(false));
    assert t.wire + [] == t.wire;
    assert Handled(t.handled) + [] + [] == Handled(t.handled);
  }

  // ---- the object

  class Sender {
    var protocol: Protocol
    const ids: Ids.IdSource
    var taken: seq<Message>  // the local messages of threads inside send_action
    var posted: seq<Message>
    var messages: seq<Message>
    var sendBuffer: seq<byte>
    var totalBytesTransferred: nat
    var outstanding: nat
    var written: nat  // octets the pending write has taken
    ghost var made: seq<Message>
    ghost var handled: seq<Completion>
    ghost var asked: seq<Message>
    ghost var started: seq<Started>
    ghost var wire: seq<byte>

    ghost function View(): State
      reads this, ids
    {
      State(protocol, ids.id, made, taken, posted, messages, sendBuffer, outstanding, written, totalBytesTransferred,
            handled, asked, started, wire)
    }

    constructor ()
      ensures View() == Init(Telnet) && fresh(ids)
    {
      protocol := Telnet;
      ids := new Ids.IdSource();
      taken, posted, messages, sendBuffer, totalBytesTransferred, outstanding := [], [], [], [], 0, 0;
      made := [];
      written, handled, asked, started, wire := 0, [], [], [], [];
    }

    method SetProtocol(p: Protocol)
      modifies this`protocol
      ensures View() == old(View()).(protocol := p)
    {
      protocol := p;
    }

    /** One thread in `send_action`, which no other overtakes. */
    method SendAction(contents: seq<byte>) returns (id: uint32)
      modifies this, ids
      ensures View() == PostTaken(Asked(old(View()), contents), |old(taken)|)
      ensures id != 0 && asked == old(asked) + [Message(Action, id, contents)] && taken == old(taken)
    {
      id := TakeId(contents);
      PostMessage(|taken| - 1);
    }

    method TakeId(contents: seq<byte>) returns (id: uint32)
      modifies this, ids
      ensures View() == Asked(old(View()), contents)
      ensures id != 0 && taken == old(taken) + [Message(Action, id, contents)]
    {
      id := ids.Allocate();
      made := made + [Message(Action, id, contents)];
      taken := taken + [Message(Action, id, contents)];
    }

    method PostMessage(j: nat)
      requires j < |taken|
      modifies this
      ensures View() == PostTaken(old(View()), j)
    {
      posted := posted + [taken[j]];
      asked := asked + [taken[j]];
      taken := Without(taken, j);
    }

    method SendReply(id: uint32, contents: seq<byte>)
      modifies this
      ensures View() == Answered(old(View()), id, contents)
    {
      posted := posted + [Message(Reply, id, contents)];
      asked := asked + [Message(Reply, id, contents)];
    }

    /** The strand takes the oldest posted message. */
    method RunPosted()
      requires posted != []
      modifies this
      ensures View() == Queued(old(View()).(posted := old(posted)[1..]), old(posted)[0])
    {
      var message := posted[0];
      posted := posted[1..];
      SendMessage(message);
    }

    method SendMessage(message: Message)
      modifies this
      ensures View() == Queued(old(View()), message)
    {
      var sending := messages != [];
      messages := messages + [message];
      if !sending {
        SendQueueMessage();
      }
    }

    method SendQueueMessageHandler(failed: bool, bytes: nat)
      requires messages != [] && bytes <= |sendBuffer| && outstanding > 0
      modifies this
      ensures View() == HandleWritten(old(View()), failed, bytes)
    {
      hide Encode;
      sendBuffer := sendBuffer[bytes..];
      outstanding, written := outstanding - 1, 0;
      totalBytesTransferred := totalBytesTransferred + bytes;
      handled := handled + [Completion(messages[0], failed, bytes)];
      messages := messages[1..];
      assert View() == Retired(old(View()), failed, bytes);
      if messages != [] {
        SendQueueMessage();
      }
    }

    method SendQueueMessage()
      requires messages != []
      modifies this
      ensures View() == StartFront(old(View()))
    {
      sendBuffer := sendBuffer + Encode(protocol, messages[0]);
      outstanding, written := outstanding + 1, 0;
      started := started + [Started(protocol, messages[0])];
    }

    /** One turn of the event loop: the object does what `Next` says, so every run above is its run. */
    method Dispatch(e: Event)
      requires Safe(View()) && Enabled(View(), e)
      modifies this, ids
      ensures View() == Next(old(View()), e)
    {
      match e {
        case Ask(contents) => var id := TakeId(contents);
        case PostAsked(j) => PostMessage(j);
        case Answer(id, contents) => SendReply(id, contents);
        case Strand => RunPosted();
        case Write(n) =>
          wire := wire + sendBuffer[written..written + n];
          written := written + n;
        case Done(failed) => SendQueueMessageHandler(failed, written);
        case Switch(p) => SetProtocol(p);
      }
    }
  }
}
