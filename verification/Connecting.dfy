/**
 * `tconnector`: connects to the first endpoint that answers. Each round hands the
 * whole remaining range to `async_connect`, and a failed round starts the next
 * one a single endpoint further on, whatever the last round already tried.
 */
module Connecting {

  /** `Trying(from, at)`: a round over the endpoints from `from` on has reached `at`. */
  datatype Phase = Resolving | Trying(from: nat, at: nat) | Ended

  /** `tried`: the endpoints attempted so far; `calls`: the errors, or not, given to the connect handler. */
  datatype State = State(endpoints: nat, phase: Phase, tried: seq<nat>, calls: seq<bool>)

  const INIT := State(0, Resolving, [], [])

  // ---- the code

  function Call(s: State, failed: bool): State {
    s.(phase := Ended, calls := s.calls + [failed])
  }

  function Connect(s: State, position: nat): State {
    s.(phase := Trying(position, position))
  }

  /** `asio_resolve_handler` with `n` endpoints, or with an error. */
  function HandleResolved(s: State, failed: bool, n: nat): State {
    if failed then Call(s, true) else Connect(s.(endpoints := n), 0)
  }

  function HandleConnected(s: State, failed: bool, position: nat): State {
    if !failed then Call(s, false)
    else if position + 1 == s.endpoints then Call(s, true)
    else Connect(s, position + 1)
  }

  // ---- resolver and sockets

  /** `Resolved(n)`: a resolver that succeeds has at least one endpoint. `Attempt`: one socket connects or not. */
  datatype Event = Resolved(n: nat) | ResolveFailed | Attempt(ok: bool)

  predicate Enabled(s: State, e: Event) {
    match e
    case Resolved(n) => s.phase.Resolving? && n > 0
    case ResolveFailed => s.phase.Resolving?
    case Attempt(_) => s.phase.Trying? && s.phase.at < s.endpoints
  }

  function Next(s: State, e: Event): State
    requires Enabled(s, e)
  {
    match e
    case Resolved(n) => HandleResolved(s, false, n)
    case ResolveFailed => HandleResolved(s, true, 0)
    case Attempt(ok) =>
      var t := s.(tried := s.tried + [s.phase.at]);
      if ok then HandleConnected(t, false, s.phase.from)
      else if s.phase.at + 1 < s.endpoints then t.(phase := Trying(s.phase.from, s.phase.at + 1))
      else HandleConnected(t, true, s.phase.from)
  }

  predicate RunOk(s: State, es: seq<Event>)
    decreases |es|
  {
    es == [] || (Enabled(s, es[0]) && RunOk(Next(s, es[0]), es[1..]))
  }

  function Run(s: State, es: seq<Event>): State
    requires RunOk(s, es)
    decreases |es|
  {
    if es == [] then s else Run(Next(s, es[0]), es[1..])
  }

  // ---- the reference: which endpoint is tried when

  function Round(from: nat, n: nat): seq<nat>
    decreases n - from
  {
    if from >= n then [] else [from] + Round(from + 1, n)
  }

  function Schedule(from: nat, n: nat): seq<nat>
    decreases n - from
  {
    if from >= n then [] else Round(from, n) + Schedule(from + 1, n)
  }

  lemma {:induction false} RoundLength(from: nat, n: nat)
    requires from <= n
    ensures |Round(from, n)| == n - from
    decreases n - from
  {
    if from < n {
      RoundLength(from + 1, n);
    }
  }

  lemma {:induction false} ScheduleLength(from: nat, n: nat)
    requires from <= n
    ensures 2 * |Schedule(from, n)| == (n - from) * (n - from + 1)
    decreases n - from
  {
    if from < n {
      RoundLength(from, n);
      ScheduleLength(from + 1, n);
    }
  }

  /** What is still to be tried if nothing answers. */
  function Remaining(s: State): seq<nat> {
    match s.phase
    case Trying(from, at) => Round(at, s.endpoints) + Schedule(from + 1, s.endpoints)
    case _ => []
  }

  /** `won`: whether an attempt succeeded. */
  ghost predicate Good(s: State, won: bool) {
    match s.phase
    case Resolving => !won && s.endpoints == 0 && s.tried == [] && s.calls == []
    case Trying(from, at) =>
      && !won && s.calls == [] && from <= at < s.endpoints
      && s.tried + Remaining(s) == Schedule(0, s.endpoints)
    case Ended =>
      && s.calls == [!won] && s.tried <= Schedule(0, s.endpoints)
      && (!won ==> s.tried == Schedule(0, s.endpoints))
  }

  predicate Won(es: seq<Event>) {
    Attempt(true) in es
  }

  lemma OneTry(tried: seq<nat>, from: nat, at: nat, n: nat)
    requires at < n
    ensures tried + (Round(at, n) + Schedule(from + 1, n)) == tried + [at] + (Round(at + 1, n) + Schedule(from + 1, n))
  {}

  lemma ScheduleUnfolds(from: nat, n: nat)
    ensures from < n ==> Schedule(from, n) == Round(from, n) + Schedule(from + 1, n)
    ensures from >= n ==> Schedule(from, n) == [] && Round(from, n) == []
  {}

  lemma Keeps(s: State, won: bool, e: Event)
    requires Good(s, won) && Enabled(s, e)
    ensures !won && Good(Next(s, e), e == Attempt(true))
  {
    hide Round, Schedule;
    match e {
      case Resolved(n) =>
        ScheduleUnfolds(0, n);
        assert [] + Schedule(0, n) == Schedule(0, n);
      case ResolveFailed =>
        ScheduleUnfolds(0, 0);
      case Attempt(ok) =>
        var from, at, n := s.phase.from, s.phase.at, s.endpoints;
        OneTry(s.tried, from, at, n);
        ScheduleUnfolds(at + 1, n);
        ScheduleUnfolds(from + 1, n);
        assert [] + Schedule(from + 1, n) == Schedule(from + 1, n);
        assert s.tried + [at] + [] == s.tried + [at];
    }
  }

  lemma {:induction false} KeepsRun(s: State, es: seq<Event>)
    requires Good(s, false) && RunOk(s, es)
    ensures Good(Run(s, es), Won(es))
    decreases |es|
  {
    if es != [] {
      var t := Next(s, es[0]);
      Keeps(s, false, es[0]);
      assert es == [es[0]] + es[1..];
      if es[0] == Attempt(true) {
        assert es[1..] == [] && Run(t, []) == t;
      } else {
        KeepsRun(t, es[1..]);
      }
    }
  }

  /** How many sockets were tried. */
  function Tries(es: seq<Event>): nat {
    if es == [] then 0 else (if es[0].Attempt? then 1 else 0) + Tries(es[1..])
  }

  lemma {:induction false} TriesCount(s: State, es: seq<Event>)
    requires RunOk(s, es)
    ensures |Run(s, es).tried| == |s.tried| + Tries(es)
    decreases |es|
  {
    if es != [] {
      TriesCount(Next(s, es[0]), es[1..]);
    }
  }

  /** Once the resolver is done its answer stands. */
  lemma {:induction false} AnswerStands(s: State, es: seq<Event>)
    requires RunOk(s, es) && !s.phase.Resolving?
    ensures Run(s, es).endpoints == s.endpoints && !Run(s, es).phase.Resolving?
    ensures (forall e :: e in es ==> e.Attempt?) && (s.phase.Ended? ==> es == [])
    decreases |es|
  {
    if es != [] {
      AnswerStands(Next(s, es[0]), es[1..]);
      assert es == [es[0]] + es[1..];
    }
  }

  lemma OneAnswer(es: seq<Event>)
    requires RunOk(INIT, es) && es != []
    ensures !es[0].Attempt? && forall e :: e in es[1..] ==> e.Attempt?
    ensures Run(INIT, es).endpoints == if es[0].Resolved? then es[0].n else 0
    ensures !Run(INIT, es).phase.Resolving?
  {
    AnswerStands(Next(INIT, es[0]), es[1..]);
  }

  lemma StillToTry(s: State)
    requires s.phase.Trying? && Good(s, false)
    ensures |s.tried| < |Schedule(0, s.endpoints)| && s.tried <= Schedule(0, s.endpoints)
  {
    hide Schedule;
    assert Remaining(s) != [];
  }

  /**
   * Over every run in which the resolver answers with n endpoints: they are tried
   * by their schedule, one for each attempt, n(n+1)/2 times at most. It ends with the
   * first success or when all of them have failed, and then the connect handler was
   * called once, with an error exactly if no attempt succeeded.
   */
  lemma ConnectsBySchedule(es: seq<Event>, n: nat)
    requires RunOk(INIT, es) && Resolved(n) in es
    ensures Tries(es) <= |Schedule(0, n)| && 2 * |Schedule(0, n)| == n * (n + 1)
    ensures var s := Run(INIT, es);
            && s.tried == Schedule(0, n)[..Tries(es)]
            && (s.phase.Ended? <==> Won(es) || Tries(es) == |Schedule(0, n)|)
            && s.calls == (if s.phase.Ended? then [!Won(es)] else [])
  {
    KeepsRun(INIT, es);
    OneAnswer(es);
    assert es == [es[0]] + es[1..];
    assert es[0] == Resolved(n);
    TriesCount(INIT, es);
    ScheduleLength(0, n);
    var s := Run(INIT, es);
    hide Run, RunOk, Schedule, Tries, Won;
    if s.phase.Trying? {
      StillToTry(s);
    }
  }

  /** And when the resolver fails that is reported, once, and nothing is tried. */
  lemma NothingToTry(es: seq<Event>)
    requires RunOk(INIT, es) && ResolveFailed in es
    ensures Run(INIT, es).calls == [true] && Run(INIT, es).tried == [] && Tries(es) == 0
  {
    OneAnswer(es);
    assert es == [es[0]] + es[1..];
    var s := Next(INIT, es[0]);
    AnswerStands(s, es[1..]);
    assert Run(s, []) == s;
    TriesCount(INIT, es);
  }

  /** It ends: until the handler was called something can happen, and each attempt leaves less to try. */
  lemma EachAttemptIsProgress(s: State, e: Event)
    requires Good(s, false) && !s.phase.Ended?
    ensures s.phase.Trying? ==> Enabled(s, Attempt(true)) && Enabled(s, Attempt(false))
    ensures s.phase.Trying? && Enabled(s, e) ==> |Remaining(Next(s, e))| < |Remaining(s)|
  {}

  // ---- the object

  class Connector {
    var endpoints: nat
    var phase: Phase
    ghost var tried: seq<nat>
    ghost var calls: seq<bool>

    ghost function View(): State
      reads this
    {
      State(endpoints, phase, tried, calls)
    }

    constructor ()
      ensures View() == INIT
    {
      endpoints, phase, tried, calls := 0, Resolving, [], [];
    }

    method AsioResolveHandler(failed: bool, n: nat)
      modifies this
      ensures View() == HandleResolved(old(View()), failed, n)
    {
      if failed {
        ConnectHandler(failed);
        return;
      }
      endpoints := n;
      AsioConnect(0);
    }

    method AsioConnect(position: nat)
      modifies this`phase
      ensures View() == Connect(old(View()), position)
    {
      phase := Trying(position, position);
    }

    method AsioConnectHandler(failed: bool, position: nat)
      modifies this
      ensures View() == HandleConnected(old(View()), failed, position)
    {
      if !failed {
        ConnectHandler(failed);
        return;
      }
      var next := position + 1;
      if next == endpoints {
        ConnectHandler(failed);
        return;
      }
      AsioConnect(next);
    }

    /** The user's handler; nothing is armed afterwards. */
    method ConnectHandler(failed: bool)
      modifies this
      ensures View() == Call(old(View()), failed)
    {
      phase, calls := Ended, calls + [failed];
    }

    /** One turn of the event loop, with `async_connect` going through the endpoints of a round. */
    method Dispatch(e: Event)
      requires Enabled(View(), e)
      modifies this
      ensures View() == Next(old(View()), e)
    {
      match e {
        case Resolved(n) => AsioResolveHandler(false, n);
        case ResolveFailed => AsioResolveHandler(true, 0);
        case Attempt(ok) =>
          var from, at := phase.from, phase.at;
          tried := tried + [at];
          if ok || at + 1 == endpoints {
            AsioConnectHandler(!ok, from);
          } else {
            phase := Trying(from, at + 1);
          }
      }
    }
  }
}
