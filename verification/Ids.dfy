/**
 * How `tsender::send_action` hands out message ids: every thread increments one
 * atomic 32-bit counter until it sees something else than zero.
 */
module Ids {
  import opened Bytes

  /** The number of different ids: every word but zero. */
  const PERIOD: int := WORD - 1

  /** The atomic `++id_`, which wraps. */
  function Increment(id: uint32): uint32 {
    ((id as int + 1) % WORD) as uint32
  }

  /** The id that follows `id` when no other thread interferes. */
  function Successor(id: uint32): uint32 {
    if id as int == PERIOD then 1 else id + 1
  }

  class IdSource {
    var id: uint32

    constructor ()
      ensures id == 0
    {
      id := 0;
    }

    method Allocate() returns (result: uint32)
      modifies this
      ensures result == id == Successor(old(id)) && result != 0
    {
      id := Increment(id);
      result := id;
      while result == 0
        invariant result == id == Increment(old(id)) || (old(id) as int == PERIOD && result == id == 1)
        decreases result == 0, id
      {
        id := Increment(id);
        result := id;
      }
    }
  }

  // ---- any number of threads in the loop at once

  /** `inside`: the threads that have called and not yet returned; `handed`: the ids returned, in atomic order. */
  datatype State = State(counter: uint32, inside: set<nat>, handed: seq<uint32>, retries: nat)

  datatype Event = Call(thread: nat) | Bump(thread: nat)

  const INIT := State(0, {}, [], 0)

  predicate Enabled(s: State, e: Event) {
    if e.Call? then e.thread !in s.inside else e.thread in s.inside
  }

  function Next(s: State, e: Event): State {
    match e
    case Call(t) => s.(inside := s.inside + {t})
    case Bump(t) =>
      var v := Increment(s.counter);
      if v == 0 then s.(counter := v, retries := s.retries + 1)
      else s.(counter := v, inside := s.inside - {t}, handed := s.handed + [v])
  }

  predicate RunOk(s: State, es: seq<Event>)
    decreases |es|
  {
    es == [] || (Enabled(s, es[0]) && RunOk(Next(s, es[0]), es[1..]))
  }

  function Run(s: State, es: seq<Event>): State
    requires RunOk(s, es)
    decreases |es|
  {
    if es == [] then s else Run(Next(s, es[0]), es[1..])
  }

  /** The counter follows the number of ids handed out, except right before it wraps. */
  predicate InStep(s: State) {
    var n := |s.handed|;
    && (forall i :: 0 <= i < n ==> s.handed[i] as int == 1 + i % PERIOD)
    && if s.counter as int == PERIOD then n > 0 && n % PERIOD == 0 && s.retries == n / PERIOD - 1
       else s.counter as int == n % PERIOD && s.retries == n / PERIOD
  }

  lemma KeepsInStep(s: State, e: Event)
    requires InStep(s)
    ensures InStep(Next(s, e))
  {
    var n := |s.handed|;
    if e.Bump? && Increment(s.counter) != 0 {
      assert Increment(s.counter) as int == 1 + n % PERIOD;
      if n % PERIOD == PERIOD - 1 {
        assert n + 1 == (n / PERIOD + 1) * PERIOD;
      } else {
        assert n + 1 == (n / PERIOD) * PERIOD + (n % PERIOD + 1);
      }
    }
  }

  lemma {:induction false} RunInStep(s: State, es: seq<Event>)
    requires InStep(s) && RunOk(s, es)
    ensures InStep(Run(s, es))
    decreases |es|
  {
    if es != [] {
      KeepsInStep(s, es[0]);
      RunInStep(Next(s, es[0]), es[1..]);
    }
  }

  lemma WithinPeriod(i: nat, j: nat)
    requires i < j < i + PERIOD
    ensures i % PERIOD != j % PERIOD
  {}

  /**
   * For every interleaving: no id is zero, the n-th one is known in advance, any
   * window of 2^32 - 1 consecutive ids has no repetition, and a retry happens
   * only when the counter wraps.
   */
  lemma IdsAreDistinct(es: seq<Event>, i: nat, j: nat)
    requires RunOk(INIT, es)
    requires i <= j < |Run(INIT, es).handed|
    ensures var s := Run(INIT, es);
            s.handed[j] as int == 1 + j % PERIOD && s.handed[j] != 0
            && (i < j < i + PERIOD ==> s.handed[i] != s.handed[j])
            && s.retries <= |s.handed| / PERIOD
  {
    RunInStep(INIT, es);
    hide InStep;
    if i < j < i + PERIOD {
      WithinPeriod(i, j);
    }
  }

  /** A thread that runs alone gets the successor of the last id. */
  lemma AloneIsSuccessor(s: State, t: nat)
    requires InStep(s) && t !in s.inside
    ensures var once := Next(Next(s, Call(t)), Bump(t));
            var s' := if s.counter as int == PERIOD then Next(once, Bump(t)) else once;
            s'.handed == s.handed + [Successor(s.counter)]
            && s'.inside == s.inside && s'.counter == Successor(s.counter)
  {}
}
