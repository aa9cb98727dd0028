/** How sessions end: which of them leave the list, which never do, and what keeps their names taken. */
module Departures {
  import opened Lobby
  import opened LobbyInvariants
  import opened LobbyHistory

  // ---- sessions that can never be reaped

  /** Its reads have ended, nothing it sent is outstanding, and it is not reapable: no handler of it runs any more. */
  predicate Stuck(x: Session) {
    !x.accepting && !x.receiving && x.unsent == 0 && !x.status.Reapable?
  }

  lemma StuckStep(s: State, e: Event, x: Session)
    requires Good(s) && Enabled(s, e) && x in s.sessions && Stuck(x)
    ensures x in Next(s, e).sessions
  {
    var t := Next(s, e);
    var k :| 0 <= k < |s.sessions| && s.sessions[k] == x;
    if e.Reap? {
      SurvivorsMembers(s.sessions);
    } else {
      assert k != e.i;
      if e.Command? {
        CommandEffect(s, e.i, e.text);
      }
      assert t.sessions[k] == x;
    }
  }

  lemma {:induction false} StuckForever(s: State, es: seq<Event>, x: Session)
    requires Good(s) && RunOk(s, es) && x in s.sessions && Stuck(x)
    ensures x in Run(s, es).sessions
    decreases |es|
  {
    hide Good, Next, Enabled;
    if es != [] {
      Keeps(s, es[0]);
      StuckStep(s, es[0], x);
      StuckForever(Next(s, es[0]), es[1..], x);
    }
  }

  lemma StepThen(s: State, e: Event, es: seq<Event>, serial: nat)
    requires Enabled(s, e) && GoneAfter(Next(s, e), es, serial)
    ensures GoneAfter(s, [e] + es, serial)
  {}

  /** Every other session can still leave the list. */
  lemma CanLeave(s: State, i: nat) returns (es: seq<Event>)
    requires Good(s) && i < |s.sessions| && !Stuck(s.sessions[i])
    ensures GoneAfter(s, es, s.sessions[i].serial)
  {
    var x := s.sessions[i];
    assert Sound(x);
    if x.status.Reapable? {
      es := [Reap];
      ReapRemoves(s, i);
    } else {
      var e := if x.accepting then Accept(i, true) else if x.unsent > 0 then Written(i, true) else Command(i, CMD_HELP);
      var t := Next(s, e);
      Keeps(s, e);
      if e.Command? {
        CommandEffect(s, i, CMD_HELP);
        assert |CMD_HELP| == 4;
        var u := Next(t, Written(i, true));
        Keeps(t, Written(i, true));
        ReapRemoves(u, i);
        StepThen(t, Written(i, true), [Reap], x.serial);
        es := [e] + ([Written(i, true)] + [Reap]);
        StepThen(s, e, [Written(i, true)] + [Reap], x.serial);
      } else {
        ReapRemoves(t, i);
        es := [e] + [Reap];
        StepThen(s, e, [Reap], x.serial);
      }
    }
  }

  /** Exactly the stuck sessions are never reaped. */
  lemma NeverReapedIffStuck(s: State, i: nat)
    requires Good(s) && i < |s.sessions|
    ensures (exists es :: GoneAfter(s, es, s.sessions[i].serial)) <==> !Stuck(s.sessions[i])
  {
    var x := s.sessions[i];
    if Stuck(x) {
      forall es | RunOk(s, es)
        ensures !GoneAfter(s, es, x.serial)
      {
        StuckForever(s, es, x);
      }
    } else {
      var es := CanLeave(s, i);
    }
  }

  /** A reapable session whose aborted read completes afterwards is disconnected again, and stuck. */
  lemma ClosedThenAborted(s: State, i: nat)
    requires Good(s) && i < |s.sessions| && s.sessions[i].receiving && s.sessions[i].unsent == 1
    ensures RunOk(s, [Written(i, true), ReadFails(i)])
    ensures i < |Run(s, [Written(i, true), ReadFails(i)]).sessions|
    ensures Stuck(Run(s, [Written(i, true), ReadFails(i)]).sessions[i])
  {
    assert Sound(s.sessions[i]);
    var t := Next(s, Written(i, true));
    assert [Written(i, true), ReadFails(i)][1..] == [ReadFails(i)];
    assert Run(t, [ReadFails(i)]) == Next(t, ReadFails(i));
  }

  /** A session whose connection ends is stuck exactly if nothing it was sent is outstanding. */
  lemma DisconnectedIsStuck(s: State, i: nat)
    requires Good(s) && Enabled(s, ReadFails(i))
    ensures Stuck(Next(s, ReadFails(i)).sessions[i]) <==> s.sessions[i].unsent == 0
  {
    assert Sound(s.sessions[i]);
    hide Good, Sound;
  }

  /** The state in which the first client was just greeted. */
  function Greeted(): State {
    var x := Sent(NewSession(0).(status := Connected), GREETING).(receiving := true);
    State([x, NewSession(1).(accepting := true)], [], 2)
  }

  lemma FirstIsGreeted()
    ensures Enabled(Init(), Accept(0, false)) && Next(Init(), Accept(0, false)) == Greeted()
  {
    var x, y := NewSession(0), NewSession(1).(accepting := true);
    assert Init().sessions == [x.(accepting := true)];
    assert Next(Init(), Accept(0, false)).sessions == Greeted().sessions;
  }

  lemma ThreeEvents(s: State, a: Event, b: Event, c: Event)
    requires Enabled(s, a) && Enabled(Next(s, a), b) && Enabled(Next(Next(s, a), b), c)
    ensures RunOk(s, [a, b, c]) && Run(s, [a, b, c]) == Next(Next(Next(s, a), b), c)
  {
    hide Next, Enabled;
    var t := Next(s, a);
    assert [a, b, c][1..] == [b, c] && [b, c][1..] == [c] && [c][1..] == [];
    assert RunOk(Next(t, b), [c]) && Run(Next(t, b), [c]) == Next(Next(t, b), c);
    assert RunOk(t, [b, c]) && Run(t, [b, c]) == Run(Next(t, b), [c]);
  }

  /** The shortest such runs: a client connects, its greeting is written or not, and it is gone. */
  lemma HelloAndGoodbye(failed: bool)
    ensures var es := [Accept(0, false), Written(0, failed), ReadFails(0)];
            RunOk(Init(), es) && |Run(Init(), es).sessions| == 2 && Stuck(Run(Init(), es).sessions[0])
  {
    FirstIsGreeted();
    hide Init;
    ThreeEvents(Init(), Accept(0, false), Written(0, failed), ReadFails(0));
  }

  /** And when it is gone first, the write that is still outstanding decides. */
  lemma GoodbyeAndHello(failed: bool)
    ensures var es := [Accept(0, false), ReadFails(0), Written(0, failed)];
            RunOk(Init(), es) && |Run(Init(), es).sessions| == 2
            && (Stuck(Run(Init(), es).sessions[0]) <==> !failed)
  {
    FirstIsGreeted();
    hide Init;
    ThreeEvents(Init(), Accept(0, false), ReadFails(0), Written(0, failed));
  }

  /** The name of a stuck session can never be used again. */
  lemma NameIsTakenForever(s: State, es: seq<Event>, x: Session, i: nat)
    requires Good(s) && RunOk(s, es) && x in s.sessions && Stuck(x)
    requires i < |Run(s, es).sessions| && Run(s, es).sessions[i].mode.Entering?
    ensures CMD_USER + x.id != CMD_HELP && EffectOf(Run(s, es), i, CMD_USER + x.id) == Says(ERROR)
  {
    StuckForever(s, es, x);
    var t := Run(s, es);
    var j :| 0 <= j < |t.sessions| && t.sessions[j] == x;
    assert UserExists(t, x.id);
    assert (CMD_USER + x.id)[|CMD_USER|..] == x.id;
    assert |CMD_USER| == 5 && |CMD_HELP| == 4;
  }

  // ---- when a session leaves

  /** The event is a failed write of the session with that serial number. */
  predicate BreaksBy(s: State, e: Event, serial: nat) {
    e.Written? && e.failed && e.i < |s.sessions| && s.sessions[e.i].serial == serial
  }

  /** The event is the end of its read. */
  predicate ReadEndsBy(s: State, e: Event, serial: nat) {
    e.ReadFails? && e.i < |s.sessions| && s.sessions[e.i].serial == serial
  }

  /** The reaper runs before the read of the session ends, if that is still to come. */
  predicate ReapsFirst(s: State, es: seq<Event>, serial: nat)
    requires RunOk(s, es)
    decreases |es|
  {
    es != [] && (es[0].Reap? || (!ReadEndsBy(s, es[0], serial) && ReapsFirst(Next(s, es[0]), es[1..], serial)))
  }

  /** At some time a write of the session fails, and then the reaper runs before its read ends. */
  predicate BreaksThenReaps(s: State, es: seq<Event>, serial: nat)
    requires RunOk(s, es)
    decreases |es|
  {
    es != [] && var t := Next(s, es[0]);
    BreaksThenReaps(t, es[1..], serial) || (BreaksBy(s, es[0], serial) && ReapsFirst(t, es[1..], serial))
  }

  lemma ElsewhereStays(s: State, e: Event, i: nat)
    requires Enabled(s, e) && e.Accept? && OnlyBackWaits(s.sessions)
    requires i < |s.sessions| && !s.sessions[i].accepting
    ensures i < |Next(s, e).sessions| && Next(s, e).sessions[i] == s.sessions[i]
  {}

  /** A step of a session that was connected: a failed write makes it reapable, and the end of its read undoes that. */
  lemma StatusStep(s: State, e: Event, i: nat)
    requires Good(s) && Enabled(s, e) && !e.Reap? && i < |s.sessions| && !s.sessions[i].accepting
    ensures i < |Next(s, e).sessions|
    ensures var x, y := s.sessions[i], Next(s, e).sessions[i];
            && y.serial == x.serial && !y.accepting
            && (y.status.Reapable? <==> e == Written(i, true) || (x.status.Reapable? && e != ReadFails(i)))
  {
    assert OnlyBackWaits(s.sessions);
    hide Good, OnlyBackWaits;
    match e {
      case Accept(_, _) =>
        hide Next;
        ElsewhereStays(s, e, i);
      case Command(j, text) =>
        hide Next, EffectOf;
        CommandEffect(s, j, text);
      case _ =>
    }
  }

  lemma SerialIsPlace(s: State, i: nat, j: nat)
    requires Good(s) && i < |s.sessions| && j < |s.sessions|
    ensures s.sessions[i].serial == s.sessions[j].serial <==> i == j
  {}

  /** The same in the list, where the reaper may be at work. */
  lemma ListStep(s: State, e: Event, x: Session) returns (y: Session)
    requires Good(s) && Enabled(s, e) && x in s.sessions && !x.accepting && !(e.Reap? && x.status.Reapable?)
    ensures y in Next(s, e).sessions && y.serial == x.serial && !y.accepting
    ensures y.status.Reapable? <==>
              BreaksBy(s, e, x.serial) || (x.status.Reapable? && !ReadEndsBy(s, e, x.serial))
  {
    var i :| 0 <= i < |s.sessions| && s.sessions[i] == x;
    if e.Reap? {
      hide Good;
      SurvivorsMembers(s.sessions);
      y := x;
    } else {
      StatusStep(s, e, i);
      SerialIsPlace(s, i, e.i);
      hide Good, Next;
      y := Next(s, e).sessions[i];
    }
  }

  /** Who has left does not come back. */
  lemma GoneStays(s: State, es: seq<Event>, serial: nat)
    requires Good(s) && RunOk(s, es) && serial < s.created && serial !in Serials(s.sessions)
    ensures serial !in Serials(Run(s, es).sessions)
  {
    hide Good, Run, RunOk;
    RunHistory(s, es);
    var t := Run(s, es);
    forall j | 0 <= j < |t.sessions|
      ensures t.sessions[j].serial != serial
    {
      assert t.sessions[j] in t.sessions;
    }
  }

  lemma LeavesByReap(s: State, x: Session)
    requires Good(s) && x in s.sessions && x.status.Reapable?
    ensures x.serial < Next(s, Reap).created && x.serial !in Serials(Next(s, Reap).sessions)
  {
    var i :| 0 <= i < |s.sessions| && s.sessions[i] == x;
    LeavesIffReaped(s, Reap, i);
  }

  lemma OneOrOther(s: State, e: Event, serial: nat)
    ensures !(BreaksBy(s, e, serial) && ReadEndsBy(s, e, serial))
    ensures e.Reap? ==> !BreaksBy(s, e, serial) && !ReadEndsBy(s, e, serial)
  {}

  /**
   * When a session that was connected leaves: over every run, exactly if one of its
   * writes fails, or it is reapable to begin with, and the reaper then runs before
   * its read ends. Once its read has ended nothing is left that could undo a failed write.
   */
  lemma {:induction false} LeavesIffWriteFails(s: State, es: seq<Event>, x: Session)
    requires Good(s) && RunOk(s, es) && x in s.sessions && !x.accepting
    ensures x.serial !in Serials(Run(s, es).sessions) <==>
            BreaksThenReaps(s, es, x.serial) || (x.status.Reapable? && ReapsFirst(s, es, x.serial))
    decreases |es|
  {
    hide Good, Next, Enabled, BreaksBy, ReadEndsBy;
    if es == [] {
      var i :| 0 <= i < |s.sessions| && s.sessions[i] == x;
    } else {
      var e, t := es[0], Next(s, es[0]);
      Keeps(s, e);
      if e.Reap? && x.status.Reapable? {
        LeavesByReap(s, x);
        GoneStays(t, es[1..], x.serial);
      } else {
        var y := ListStep(s, e, x);
        OneOrOther(s, e, x.serial);
        LeavesIffWriteFails(t, es[1..], y);
      }
    }
  }

  /** Of the failed writes of the i-th session and the end of its read a failed write is the last; `r` if none is. */
  function LastFailed(es: seq<Event>, i: nat, r: bool): bool
    decreases |es|
  {
    if es == [] then r else LastFailed(es[1..], i, es[0] == Written(i, true) || (r && es[0] != ReadFails(i)))
  }

  lemma {:induction false} LastFailedIs(es: seq<Event>, i: nat, r: bool)
    ensures ReadFails(i) !in es ==> (LastFailed(es, i, r) <==> r || Written(i, true) in es)
    decreases |es|
  {
    if es != [] {
      assert es == [es[0]] + es[1..];
      LastFailedIs(es[1..], i, es[0] == Written(i, true) || (r && es[0] != ReadFails(i)));
    }
  }

  lemma StaysDeaf(s: State, e: Event, i: nat)
    requires Good(s) && Enabled(s, e) && !e.Reap?
    requires i < |s.sessions| && !s.sessions[i].receiving && !s.sessions[i].accepting
    ensures i < |Next(s, e).sessions| && !Next(s, e).sessions[i].receiving && !Next(s, e).sessions[i].accepting
    ensures e != ReadFails(i)
  {
    assert OnlyBackWaits(s.sessions);
    hide Good, OnlyBackWaits;
    match e {
      case Accept(_, _) =>
        hide Next;
        ElsewhereStays(s, e, i);
      case Command(j, text) =>
        hide Next, EffectOf;
        CommandEffect(s, j, text);
      case _ =>
    }
  }

  lemma {:induction false} NoMoreReads(s: State, es: seq<Event>, i: nat)
    requires Good(s) && RunOk(s, es) && Reap !in es
    requires i < |s.sessions| && !s.sessions[i].receiving && !s.sessions[i].accepting
    ensures ReadFails(i) !in es
    decreases |es|
  {
    hide Good;
    if es != [] {
      assert es == [es[0]] + es[1..];
      Keeps(s, es[0]);
      StaysDeaf(s, es[0], i);
      hide Next, Enabled;
      NoMoreReads(Next(s, es[0]), es[1..], i);
    }
  }

  lemma {:induction false} StatusRun(s: State, es: seq<Event>, i: nat)
    requires Good(s) && RunOk(s, es) && i < |s.sessions| && !s.sessions[i].accepting && Reap !in es
    ensures i < |Run(s, es).sessions|
    ensures Run(s, es).sessions[i].status.Reapable? <==> LastFailed(es, i, s.sessions[i].status.Reapable?)
    decreases |es|
  {
    hide Good;
    if es != [] {
      assert es == [es[0]] + es[1..];
      Keeps(s, es[0]);
      StatusStep(s, es[0], i);
      hide Next, Enabled;
      StatusRun(Next(s, es[0]), es[1..], i);
    }
  }

  /**
   * Without the reaper a session that was connected stays in its place. It is
   * reapable exactly if the last of its failed writes and the end of its read is a failed
   * write; so, if its read does not end or has ended before, exactly if a write fails.
   */
  lemma ReapableIffWriteFailed(s: State, es: seq<Event>, i: nat)
    requires Good(s) && RunOk(s, es) && i < |s.sessions| && !s.sessions[i].accepting && Reap !in es
    ensures i < |Run(s, es).sessions|
    ensures Run(s, es).sessions[i].status.Reapable? <==> LastFailed(es, i, s.sessions[i].status.Reapable?)
    ensures !s.sessions[i].status.Reapable? && (ReadFails(i) !in es || !s.sessions[i].receiving) ==>
              (Run(s, es).sessions[i].status.Reapable? <==> Written(i, true) in es)
  {
    hide Good, Run, RunOk;
    StatusRun(s, es, i);
    LastFailedIs(es, i, s.sessions[i].status.Reapable?);
    if !s.sessions[i].receiving {
      NoMoreReads(s, es, i);
    }
  }

  /** A failed write, and then the reaper, are the end of any session. */
  lemma FailedWriteIsReaped(s: State, i: nat)
    requires Good(s) && Enabled(s, Written(i, true))
    ensures GoneAfter(s, [Written(i, true), Reap], s.sessions[i].serial)
  {
    var t := Next(s, Written(i, true));
    Keeps(s, Written(i, true));
    assert t.sessions[i].status.Reapable? && t.sessions[i].serial == s.sessions[i].serial;
    hide Good, Next;
    ReapRemoves(t, i);
    StepThen(s, Written(i, true), [Reap], s.sessions[i].serial);
    assert [Written(i, true)] + [Reap] == [Written(i, true), Reap];
  }
}
