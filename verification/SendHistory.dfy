/** What a run of the sender did, read off its events alone: requests, protocols, writes and their results. */
module SendHistory {
  import opened Bytes
  import opened Messages
  import opened Sending

  // ---- what the send handler is told

  /** The results of the writes, in order. */
  function Results(es: seq<Event>): seq<bool> {
    if es == [] then [] else (if es[0].Done? then [es[0].failed] else []) + Results(es[1..])
  }

  /** How many octets each write put on the wire; `n` of the first one are there already. */
  function Bursts(es: seq<Event>, n: nat): seq<nat> {
    if es == [] then []
    else
      match es[0]
      case Write(more) => Bursts(es[1..], n + more)
      case Done(_) => [n] + Bursts(es[1..], 0)
      case _ => Bursts(es[1..], n)
  }

  lemma OneCompletion(s: State, e: Event)
    requires Good(s) && Enabled(s, e)
    ensures var t := Next(s, e);
            if e.Done? then s.queue != [] && t.handled == s.handled + [Completion(s.queue[0], e.failed, s.written)]
            else t.handled == s.handled
    ensures Next(s, e).written == if e.Write? then s.written + e.n else if e.Done? then 0 else s.written
  {
    hide Encode;
  }

  lemma {:induction false} CompletionsFrom(s: State, es: seq<Event>)
    requires Good(s) && RunOk(s, es)
    ensures var h, n := Run(s, es).handled, |s.handled|;
            && s.handled <= h
            && |h| == n + |Results(es)| == n + |Bursts(es, s.written)|
            && forall k :: 0 <= k < |Results(es)| ==>
                 h[n + k].failed == Results(es)[k] && h[n + k].bytes == Bursts(es, s.written)[k]
    decreases |es|
  {
    hide Good, Next, Enabled;
    if es != [] {
      var e, t := es[0], Next(s, es[0]);
      Keeps(s, e);
      OneCompletion(s, e);
      CompletionsFrom(t, es[1..]);
    }
  }

  /** One call for each write that ended, with the result of that write and with the octets it put on the wire. */
  predicate Hears(es: seq<Event>, h: seq<Completion>) {
    && |h| == |Results(es)| && |h| == |Bursts(es, 0)|
    && forall k :: 0 <= k < |h| ==> h[k].failed == Results(es)[k] && h[k].bytes == Bursts(es, 0)[k]
  }

  /** So the send handler is called, over every run. */
  lemma HandlerHearsResults(p: Protocol, es: seq<Event>)
    requires RunOk(Init(p), es)
    ensures Hears(es, Run(Init(p), es).handled)
  {
    assert Init(p).handled == [] && Init(p).written == 0;
    hide Init, Run, RunOk, Results, Bursts, Good;
    GoodInit(p);
    CompletionsFrom(Init(p), es);
  }

  // ---- under which protocol

  /** The protocol after some events. */
  function InForce(p: Protocol, es: seq<Event>): Protocol
    decreases |es|
  {
    if es == [] then p else InForce(if es[0].Switch? then es[0].protocol else p, es[1..])
  }

  lemma {:induction false} ProtocolIsInForce(s: State, es: seq<Event>)
    requires RunOk(s, es)
    ensures Run(s, es).protocol == InForce(s.protocol, es)
    decreases |es|
  {
    hide Encode;
    if es != [] {
      ProtocolIsInForce(Next(s, es[0]), es[1..]);
    }
  }

  /** Each write is started for the front message, encoded by the protocol that was set last. */
  lemma StartsUnderProtocol(p: Protocol, es: seq<Event>, e: Event)
    requires RunOk(Init(p), es + [e])
    ensures RunOk(Init(p), es)
    ensures var s, t := Run(Init(p), es), Run(Init(p), es + [e]);
            t.started == s.started
            || (t.queue != [] && t.started == s.started + [Started(InForce(p, es), t.queue[0])])
  {
    RunAppend(Init(p), es, [e]);
    ProtocolIsInForce(Init(p), es);
    var s := Run(Init(p), es);
    assert [e][1..] == [] && Run(s, [e]) == Next(s, e);
    hide Encode, Run, RunOk, InForce;
  }

  // ---- what is asked for

  /** The texts of the actions, in the order in which their ids are taken. */
  function Texts(es: seq<Event>): seq<seq<byte>> {
    if es == [] then [] else (if es[0].Ask? then [es[0].contents] else []) + Texts(es[1..])
  }

  /** The replies, in order. */
  function Answers(es: seq<Event>): seq<Message> {
    if es == [] then []
    else (if es[0].Answer? then [Message(Reply, es[0].id, es[0].contents)] else []) + Answers(es[1..])
  }

  function Replies(ms: seq<Message>): seq<Message> {
    if ms == [] then []
    else
      var last := ms[|ms| - 1];
      Replies(ms[..|ms| - 1]) + if last.kind.Reply? then [last] else []
  }

  lemma RepliesMore(ms: seq<Message>, m: Message)
    ensures Replies(ms + [m]) == Replies(ms) + if m.kind.Reply? then [m] else []
  {
    assert (ms + [m])[..|ms|] == ms;
  }

  lemma OneRequest(s: State, e: Event)
    requires Safe(s) && Enabled(s, e) && Distributed(s)
    ensures var t := Next(s, e);
            Replies(t.asked) == Replies(s.asked) + (if e.Answer? then [Message(Reply, e.id, e.contents)] else [])
    ensures var t := Next(s, e);
            if e.Ask? then |t.made| == |s.made| + 1 && s.made <= t.made && t.made[|s.made|].contents == e.contents
            else t.made == s.made
  {
    hide Encode, Replies, Bag;
    match e {
      case PostAsked(j) => RepliesMore(s.asked, s.taken[j]);
      case Answer(id, contents) => RepliesMore(s.asked, Message(Reply, id, contents));
      case _ => assert Replies(s.asked) + [] == Replies(s.asked);
    }
  }

  lemma {:induction false} RepliesFrom(s: State, es: seq<Event>)
    requires Distributed(s) && RunOk(s, es)
    ensures Replies(Run(s, es).asked) == Replies(s.asked) + Answers(es)
    decreases |es|
  {
    hide Distributed, Next, Enabled, Replies;
    if es == [] {
      assert Replies(s.asked) + [] == Replies(s.asked);
    } else {
      var e, t := es[0], Next(s, es[0]);
      KeepsDistributed(s, e);
      OneRequest(s, e);
      RepliesFrom(t, es[1..]);
      var one := if e.Answer? then [Message(Reply, e.id, e.contents)] else [];
      assert Answers(es) == one + Answers(es[1..]);
      hide Answers;
      Associate(Replies(s.asked), one, Answers(es[1..]));
    }
  }

  lemma {:induction false} MadeFrom(s: State, es: seq<Event>)
    requires Distributed(s) && RunOk(s, es)
    ensures var made, n := Run(s, es).made, |s.made|;
            s.made <= made && |made| == n + |Texts(es)|
            && forall k :: 0 <= k < |Texts(es)| ==> made[n + k].contents == Texts(es)[k]
    decreases |es|
  {
    hide Distributed, Next, Enabled, Replies;
    if es != [] {
      KeepsDistributed(s, es[0]);
      OneRequest(s, es[0]);
      MadeFrom(Next(s, es[0]), es[1..]);
    }
  }

  lemma NothingMade(p: Protocol)
    ensures var s := Init(p); Numbered(s) && Distributed(s) && Replies(s.asked) == [] && s.made == []
  {
    assert Actions([]) == [];
  }

  lemma NumberedAction(s: State, k: nat)
    requires Numbered(s) && k < |s.made|
    ensures s.made[k] == Message(Action, (1 + k % Ids.PERIOD) as uint32, s.made[k].contents)
  {}

  lemma EachOnce(s: State)
    requires Distributed(s)
    ensures multiset(Actions(s.asked)) + multiset(s.taken) == multiset(s.made)
  {
    AllActions(s.taken);
    hide Actions;
  }

  /**
   * Over every run: the k-th action asked for got the k-th id, from one on and
   * modulo their number, and its own text; each of these actions is posted, once, or
   * not yet; the replies are posted in order, with their own ids and texts; and
   * nothing else is ever posted.
   */
  lemma RequestsArePosted(p: Protocol, es: seq<Event>)
    requires RunOk(Init(p), es)
    ensures var s, texts := Run(Init(p), es), Texts(es);
            |s.made| == |texts|
            && (forall k :: 0 <= k < |texts| ==> s.made[k] == Message(Action, (1 + k % Ids.PERIOD) as uint32, texts[k]))
            && multiset(Actions(s.asked)) + multiset(s.taken) == multiset(s.made)
            && Replies(s.asked) == Answers(es)
  {
    hide Init, Run, RunOk, Actions, Replies, Texts, Answers, Distributed, Numbered, PostedInOrder;
    NothingMade(p);
    ActionsAreNumbered(Init(p), es);
    RepliesFrom(Init(p), es);
    Associate([], [], Answers(es));
    MadeFrom(Init(p), es);
    var s := Run(Init(p), es);
    EachOnce(s);
    forall k | 0 <= k < |s.made|
      ensures s.made[k] == Message(Action, (1 + k % Ids.PERIOD) as uint32, s.made[k].contents)
    {
      NumberedAction(s, k);
    }
  }
}
