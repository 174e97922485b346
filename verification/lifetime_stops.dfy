/**
 When a stop request is heard. Whether a disconnect's stop holds is decided by two things before
 the request is sent: the host's backlog has room when the connection is opened, and the host does
 not give up reading while the request is on its way.
 */
module LifetimeStops {
  import opened Wrappers
  import opened LifetimeProtocol
  import opened LifetimeSafety
  import opened LifetimeWitnesses

  // ---------------------------------------------------------------- one attempt to stop a host

  predicate Trying(s: State) {
    s.cli.DisconnectRestored? || s.cli.StopOpened?
  }

  /** A run of hosts and of the disconnect from its restored configuration to the end of its
      attempt to stop the host. */
  predicate Attempt(s: State, events: seq<Event>)
    decreases |events|
  {
    && events != [] && Trying(s) && Step(s, events[0]).Some?
    && var next := Step(s, events[0]).value;
      if next.cli.StopTried? then |events| == 1 else Attempt(next, events[1..])
  }

  /** Where an attempt ends. */
  function After(s: State, events: seq<Event>): State
    requires Attempt(s, events)
    decreases |events|
  {
    var next := Step(s, events[0]).value;
    if next.cli.StopTried? then next else After(next, events[1..])
  }

  datatype Fate = Heard | NoRoom | TimedOut

  /** The disconnect opens its connection while the host's backlog is full. */
  predicate FindsNoRoom(s: State, e: Event) {
    && e.OfCli? && s.cli.DisconnectRestored?
    && var target := Target(s, s.cli.gen);
      target.Some? && |s.hosts[target.value].queue| > BACKLOG
  }

  /** A host gives up reading the stop connection. */
  predicate GivesUp(s: State, e: Event) {
    e.OfHost? && e.he.ReadTimeout? && e.pid in s.hosts && s.cli.StopOpened? && s.hosts[e.pid].reading == Some(s.cli.id)
  }

  /** What becomes of the request, by the guards passed on the way. */
  function FateOf(s: State, events: seq<Event>): Fate
    requires Attempt(s, events)
    decreases |events|
  {
    var next := Step(s, events[0]).value;
    if FindsNoRoom(s, events[0]) then NoRoom
    else if GivesUp(s, events[0]) then TimedOut
    else if next.cli.StopTried? then Heard
    else FateOf(next, events[1..])
  }

  // ---------------------------------------------------------------- the request settles exactly when it is heard

  /** Hosts leave the disconnect alone; a connection goes silent only when a host gives it up. */
  lemma HostsLeaveWaiting(s: State, p: nat, e: HostEvent)
    requires s.cli.StopOpened? && HostStep(s, p, e).Some?
    ensures var t := HostStep(s, p, e).value;
      t.cli == s.cli && (IsWaiting(t, s.cli.id) <==> IsWaiting(s, s.cli.id) && !GivesUp(s, OfHost(p, e)))
  {
  }

  lemma HostsLeaveCli(s: State, p: nat, e: HostEvent)
    requires HostStep(s, p, e).Some?
    ensures HostStep(s, p, e).value.cli == s.cli
  {
  }

  lemma OpenedSends(s: State, e: CliEvent)
    requires s.cli.StopOpened? && CliStep(s, e).Some? && !CliStep(s, e).value.cli.Idle?
    ensures e.StopSend? && CliStep(s, e).value.cli == StopTried(s.cli.gen, s.cli.failed, IsWaiting(s, s.cli.id))
  {
  }

  lemma RestoredOpens(s: State, e: CliEvent)
    requires s.cli.DisconnectRestored? && CliStep(s, e).Some? && !CliStep(s, e).value.cli.Idle?
    ensures var t := CliStep(s, e).value;
      if FindsNoRoom(s, OfCli(e)) then t.cli.StopTried? && !t.cli.settled
      else if t.cli.StopTried? then t.cli.settled
      else t.cli.StopOpened? && IsWaiting(t, t.cli.id)
  {
  }

  lemma AttemptNotIdle(s: State, events: seq<Event>)
    requires Attempt(s, events)
    ensures !Step(s, events[0]).value.cli.Idle?
  {
    var next := Step(s, events[0]).value;
    if !next.cli.StopTried? { assert Trying(next); }
  }

  lemma {:induction false} OpenedSettles(s: State, events: seq<Event>)
    requires s.cli.StopOpened? && Attempt(s, events)
    ensures After(s, events).cli.StopTried?
    ensures After(s, events).cli.settled <==> IsWaiting(s, s.cli.id) && FateOf(s, events).Heard?
    decreases |events|
  {
    AttemptNotIdle(s, events);
    match events[0] {
      case OfHost(p, e) =>
        HostsLeaveWaiting(s, p, e);
        OpenedSettles(Step(s, events[0]).value, events[1..]);
      case OfCli(e) =>
        OpenedSends(s, e);
    }
  }

  /** The attempt settles exactly when the request is heard. */
  lemma {:induction false} SettlesExactly(s: State, events: seq<Event>)
    requires s.cli.DisconnectRestored? && Attempt(s, events)
    ensures After(s, events).cli.StopTried?
    ensures After(s, events).cli.settled <==> FateOf(s, events).Heard?
    decreases |events|
  {
    AttemptNotIdle(s, events);
    var next := Step(s, events[0]).value;
    match events[0] {
      case OfHost(p, e) =>
        HostsLeaveCli(s, p, e);
        SettlesExactly(next, events[1..]);
      case OfCli(e) =>
        RestoredOpens(s, e);
        if next.cli.StopOpened? { OpenedSettles(next, events[1..]); }
    }
  }

  // ---------------------------------------------------------------- the guarantee holds exactly for heard requests

  /** The last step of a settled attempt is the one that settles it. */
  lemma {:induction false} LastStep(r: iset<State>, s: State, events: seq<Event>) returns (m: State, e: Event)
    requires StepClosed(r) && s in r && Attempt(s, events)
    requires After(s, events).cli.StopTried? && After(s, events).cli.settled
    ensures m in r && StopSettles(m, e) && Step(m, e) == Some(After(s, events))
    decreases |events|
  {
    var next := Step(s, events[0]).value;
    if next.cli.StopTried? {
      m, e := s, events[0];
    } else {
      m, e := LastStep(r, next, events[1..]);
    }
  }

  /** An attempt, in a state that can be reached, that comes to `fate`. */
  ghost predicate Tried(s: State, events: seq<Event>, fate: Fate) {
    s in ReachedFrom(INIT) && s.cli.DisconnectRestored? && Attempt(s, events) && FateOf(s, events) == fate
  }

  predicate AcceptsFor(s: State, p: nat, gen: nat) {
    p in s.hosts && s.hosts[p].gen == gen && s.hosts[p].pc.Accepting?
  }

  /** After every attempt that comes to `fate`, whatever happens, a host of that generation that
      sits in its accept loop has a stop pending. */
  ghost predicate AlwaysStops(fate: Fate) {
    forall s: State, events: seq<Event>, t: State, p: nat ::
      Tried(s, events, fate) && t in ReachedFrom(After(s, events)) && AcceptsFor(t, p, s.cli.gen)
      ==> StopPending(t, t.hosts[p])
  }

  lemma {:induction false} SameGeneration(s: State, events: seq<Event>)
    requires Attempt(s, events)
    ensures After(s, events).cli.StopTried? && After(s, events).cli.gen == s.cli.gen
    decreases |events|
  {
    AttemptNotIdle(s, events);
    match events[0] {
      case OfHost(p, e) => HostsLeaveCli(s, p, e);
      case OfCli(e) => if s.cli.StopOpened? { OpenedSends(s, e); } else { RestoredGeneration(s, e); }
    }
    var next := Step(s, events[0]).value;
    if !next.cli.StopTried? { SameGeneration(next, events[1..]); }
  }

  lemma RestoredGeneration(s: State, e: CliEvent)
    requires s.cli.DisconnectRestored? && CliStep(s, e).Some? && !CliStep(s, e).value.cli.Idle?
    ensures var t := CliStep(s, e).value; (t.cli.StopTried? || t.cli.StopOpened?) && t.cli.gen == s.cli.gen
  {
  }

  lemma HeardStops()
    ensures AlwaysStops(Heard)
  {
    ReachedIsClosed();
    forall s: State, events: seq<Event>, t: State, p: nat
      | Tried(s, events, Heard) && t in ReachedFrom(After(s, events)) && AcceptsFor(t, p, s.cli.gen)
      ensures StopPending(t, t.hosts[p])
    {
      SettlesExactly(s, events);
      SameGeneration(s, events);
      var m, e := LastStep(ReachedFrom(INIT), s, events);
      NoLostStop(m, e, t, p);
    }
  }

  lemma LostStopRefutes(s: State, events: seq<Event>, fate: Fate, p: nat)
    requires Tried(s, events, fate) && LostStop(After(s, events), p)
    ensures !AlwaysStops(fate)
  {
    SameGeneration(s, events);
    var t := After(s, events);
    assert Run(t, []) == Some(t);
    assert t in ReachedFrom(t);
  }

  // ---------------------------------------------------------------- an attempt of each other fate

  ghost predicate Goes(s: State, e: Event, t: State) {
    Step(s, e).Some? && SameState(Step(s, e).value, t)
  }

  lemma LastOf(s: State, e: Event, t: State)
    requires Trying(s) && Goes(s, e, t) && t.cli.StopTried?
    ensures Attempt(s, [e]) && After(s, [e]) == t
    ensures !FindsNoRoom(s, e) && !GivesUp(s, e) ==> FateOf(s, [e]) == Heard
    ensures FindsNoRoom(s, e) ==> FateOf(s, [e]) == NoRoom
  {
    assert Step(s, e).value == t;
  }

  lemma FirstOf(s: State, e: Event, t: State, more: seq<Event>)
    requires Trying(s) && Goes(s, e, t) && !t.cli.StopTried? && Attempt(t, more)
    ensures Attempt(s, [e] + more) && After(s, [e] + more) == After(t, more)
    ensures FateOf(s, [e] + more) == if FindsNoRoom(s, e) then NoRoom else if GivesUp(s, e) then TimedOut else FateOf(t, more)
  {
    assert Step(s, e).value == t;
    assert ([e] + more)[1..] == more;
  }

  /** The stop connection is opened, accepted, given up by the host, and written to. */
  function Silent(queue: seq<nat>, reading: Option<nat>, conn: Conn): State {
    Stopping(queue, reading, conn, StopOpened(0, false, 7))
  }

  lemma OpensAndAccepts(s: State)
    requires s == One(Disconnecting, Some(0), Accepting, map[0 := 0], DisconnectRestored(0, false))
    ensures Goes(s, OfCli(StopOpen(7)), Silent([7], None, Waiting))
    ensures Goes(Silent([7], None, Waiting), OfHost(0, Accept), Silent([], Some(7), Waiting))
  {
    assert [] + [7] == [7] && [7][1..] == [];
  }

  lemma GivesUpAndSends()
    ensures Goes(Silent([], Some(7), Waiting), OfHost(0, ReadTimeout), Silent([], None, Dropped))
    ensures GivesUp(Silent([], Some(7), Waiting), OfHost(0, ReadTimeout))
    ensures Goes(Silent([], None, Dropped), OfCli(StopSend), Stopping([], None, Dropped, StopTried(0, false, false)))
  {
  }

  lemma GivenUp() returns (events: seq<Event>)
    ensures var s := Silent([7], None, Waiting);
      Attempt(s, events) && FateOf(s, events) == TimedOut && After(s, events) == Stopping([], None, Dropped, StopTried(0, false, false))
  {
    OpensAndAccepts(One(Disconnecting, Some(0), Accepting, map[0 := 0], DisconnectRestored(0, false)));
    GivesUpAndSends();
    var accept, timeout, send := OfHost(0, Accept), OfHost(0, ReadTimeout), OfCli(StopSend);
    LastOf(Silent([], None, Dropped), send, Stopping([], None, Dropped, StopTried(0, false, false)));
    FirstOf(Silent([], Some(7), Waiting), timeout, Silent([], None, Dropped), [send]);
    FirstOf(Silent([7], None, Waiting), accept, Silent([], Some(7), Waiting), [timeout] + [send]);
    events := [accept] + ([timeout] + [send]);
  }

  lemma TimedOutAttempt() returns (s: State, events: seq<Event>)
    ensures Tried(s, events, TimedOut) && LostStop(After(s, events), 0)
  {
    s := One(Disconnecting, Some(0), Accepting, map[0 := 0], DisconnectRestored(0, false));
    StopBegins(s);
    OpensAndAccepts(s);
    var more := GivenUp();
    FirstOf(s, OfCli(StopOpen(7)), Silent([7], None, Waiting), more);
    events := [OfCli(StopOpen(7))] + more;
  }

  lemma StopBegins(s: State)
    requires s == One(Disconnecting, Some(0), Accepting, map[0 := 0], DisconnectRestored(0, false))
    ensures s in ReachedFrom(INIT)
  {
    var r := ReachedFrom(INIT);
    ReachedIsClosed();
    HostUp(r);
    Disconnects(r, One(Prepared, Some(0), Accepting, map[0 := 0], Idle));
  }

  lemma NoRoomAttempt() returns (s: State, events: seq<Event>)
    ensures Tried(s, events, NoRoom) && LostStop(After(s, events), 0)
  {
    var r := ReachedFrom(INIT);
    ReachedIsClosed();
    FullBacklog(r);
    var conns := map[][0 := HungUp][1 := HungUp][2 := HungUp];
    var full := Clogged([] + [0] + [1] + [2], conns);
    Disconnects(r, full);
    s := full.(journal := Record(0, Disconnecting), cli := DisconnectRestored(0, false));
    events := [OfCli(StopFull)];
    var t := s.(cli := StopTried(0, false, false));
    LastOf(s, OfCli(StopFull), t);
    assert forall id: nat :: id in conns ==> conns[id] == HungUp;
  }

  /** A disconnect's stop holds exactly when the backlog had room and the host went on reading. */
  lemma StopsExactly(fate: Fate)
    ensures AlwaysStops(fate) <==> fate.Heard?
  {
    match fate {
      case Heard => HeardStops();
      case NoRoom =>
        var s, events := NoRoomAttempt();
        LostStopRefutes(s, events, fate, 0);
      case TimedOut =>
        var s, events := TimedOutAttempt();
        LostStopRefutes(s, events, fate, 0);
    }
  }
}
