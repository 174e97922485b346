/**
 Runs that show where the guarantees of the connected-client lifetime stop: a recovery from
 `Prepared` can leave a serving host behind a journal that says `Disconnected`, and a stop
 that met a full backlog or a read timeout can be lost.
 */
module LifetimeWitnesses {
  import opened Wrappers
  import opened LifetimeProtocol
  import opened LifetimeSafety

  lemma {:induction false} RunAppend(s: State, events: seq<Event>, more: seq<Event>)
    requires Run(s, events).Some?
    ensures Run(s, events + more) == Run(Run(s, events).value, more)
    decreases |events|
  {
    if events == [] {
      assert events + more == more;
    } else {
      assert (events + more)[0] == events[0] && (events + more)[1..] == events[1..] + more;
      RunAppend(Step(s, events[0]).value, events[1..], more);
    }
  }

  /** The walks below only use that a set of states holds the first one and follows steps. */
  ghost predicate StepClosed(r: iset<State>) {
    INIT in r && forall s, e :: s in r && Step(s, e).Some? ==> Step(s, e).value in r
  }

  lemma ReachedIsClosed()
    ensures StepClosed(ReachedFrom(INIT))
  {
    assert Run(INIT, []) == Some(INIT);
    forall s, e | s in ReachedFrom(INIT) && Step(s, e).Some? ensures Step(s, e).value in ReachedFrom(INIT) {
      var events :| Run(INIT, events) == Some(s);
      RunAppend(INIT, events, [e]);
      assert [e][1..] == [];
      assert Run(INIT, events + [e]) == Some(Step(s, e).value);
    }
  }

  predicate SameState(s: State, t: State) {
    && s.journal == t.journal && s.lease == t.lease && s.hosts == t.hosts && s.paths == t.paths
    && s.conns == t.conns && s.used == t.used && s.cli == t.cli
  }

  lemma Advance(r: iset<State>, s: State, e: Event, t: State)
    requires StepClosed(r) && s in r
    requires Step(s, e).Some? && SameState(Step(s, e).value, t)
    ensures t in r
  {
    assert Step(s, e).value == t;
  }

  /** Generation 0 with its one host at `pc`. */
  function One(phase: Phase, lease: Option<nat>, pc: Pc, paths: map<nat, nat>, cli: Cli): State {
    State(Record(0, phase), lease, map[0 := Host(0, pc, false, [], None)], paths, map[], {0}, cli)
  }

  /** A connect that finds the lease free and draws generation 0. */
  lemma Journalled(r: iset<State>)
    requires StepClosed(r)
    ensures INIT.(journal := Record(0, Prepared), used := {0}, cli := ConnectPrepared(0)) in r
  {
    Advance(r, INIT, OfCli(ConnectBegin), INIT.(cli := ConnectIdle));
    Advance(r, INIT.(cli := ConnectIdle), OfCli(ConnectPoll), INIT.(cli := ConnectFree));
    Advance(r, INIT.(cli := ConnectFree), OfCli(ConnectJournal(0)),
                     INIT.(journal := Record(0, Prepared), used := {0}, cli := ConnectPrepared(0)));
  }

  /** ... spawns its host and then dies. */
  lemma Launched(r: iset<State>)
    requires StepClosed(r)
    ensures One(Prepared, None, Spawned, map[], Idle) in r
  {
    Journalled(r);
    var s := INIT.(journal := Record(0, Prepared), used := {0}, cli := ConnectPrepared(0));
    Advance(r, s, OfCli(ConnectWrite), s.(cli := ConnectConfigured(0)));
    Advance(r, s.(cli := ConnectConfigured(0)), OfCli(ConnectSpawn(0)),
                     One(Prepared, None, Spawned, map[], ConnectWaiting(0, 0, NoTalk)));
    Advance(r, One(Prepared, None, Spawned, map[], ConnectWaiting(0, 0, NoTalk)), OfCli(Quit),
                     One(Prepared, None, Spawned, map[], Idle));
  }

  /** One move of the only host. */
  lemma HostMoves(r: iset<State>, cli: Cli, lease: Option<nat>, pc: Pc, paths: map<nat, nat>, e: HostEvent,
                  lease': Option<nat>, pc': Pc, paths': map<nat, nat>)
    requires StepClosed(r) && One(Prepared, lease, pc, paths, cli) in r
    requires HostStep(One(Prepared, lease, pc, paths, cli), 0, e).Some?
    requires SameState(HostStep(One(Prepared, lease, pc, paths, cli), 0, e).value, One(Prepared, lease', pc', paths', cli))
    ensures One(Prepared, lease', pc', paths', cli) in r
  {
    Advance(r, One(Prepared, lease, pc, paths, cli), OfHost(0, e), One(Prepared, lease', pc', paths', cli));
  }

  /** An admitted host takes the free lease and comes up as far as its accept loop, whatever
      the command-line process is doing meanwhile. */
  lemma ComesUp(r: iset<State>, cli: Cli)
    requires StepClosed(r) && One(Prepared, None, Admitted, map[], cli) in r
    ensures One(Prepared, Some(0), Accepting, map[0 := 0], cli) in r
  {
    TakesLease(r, cli);
    OpensSocket(r, cli);
  }

  lemma TakesLease(r: iset<State>, cli: Cli)
    requires StepClosed(r) && One(Prepared, None, Admitted, map[], cli) in r
    ensures One(Prepared, Some(0), Bound, map[0 := 0], cli) in r
  {
    HostMoves(r, cli, None, Admitted, map[], Lock, Some(0), Leased, map[]);
    HostMoves(r, cli, Some(0), Leased, map[], Recheck, Some(0), Checked, map[]);
    HostMoves(r, cli, Some(0), Checked, map[], Prebind, Some(0), Rechecked, map[]);
    HostMoves(r, cli, Some(0), Rechecked, map[], Bind, Some(0), Bound, map[0 := 0]);
  }

  lemma OpensSocket(r: iset<State>, cli: Cli)
    requires StepClosed(r) && One(Prepared, Some(0), Bound, map[0 := 0], cli) in r
    ensures One(Prepared, Some(0), Accepting, map[0 := 0], cli) in r
  {
    HostMoves(r, cli, Some(0), Bound, map[0 := 0], Listen, Some(0), Listening, map[0 := 0]);
    HostMoves(r, cli, Some(0), Listening, map[0 := 0], Serve, Some(0), Serving, map[0 := 0]);
    HostMoves(r, cli, Some(0), Serving, map[0 := 0], FinalCheck, Some(0), Accepting, map[0 := 0]);
  }

  // ---------------------------------------------------------------- the orphaned host

  /** A recovery that found the phase `Prepared` and the lease free, just before it saves. */
  lemma LateHost(r: iset<State>)
    requires StepClosed(r)
    ensures One(Prepared, Some(0), Accepting, map[0 := 0], RecoverRestored(0, Prepared)) in r
  {
    Launched(r);
    HostMoves(r, Idle, None, Spawned, map[], Start, None, Admitted, map[]);
    Advance(r, One(Prepared, None, Admitted, map[], Idle), OfCli(ConnectBegin),
                     One(Prepared, None, Admitted, map[], ConnectLoaded(0, Prepared, NoTalk)));
    Advance(r, One(Prepared, None, Admitted, map[], ConnectLoaded(0, Prepared, NoTalk)), OfCli(RecoverPoll),
                     One(Prepared, None, Admitted, map[], RecoverQuiet(0, Prepared)));
    ComesUp(r, RecoverQuiet(0, Prepared));
    Advance(r, One(Prepared, Some(0), Accepting, map[0 := 0], RecoverQuiet(0, Prepared)), OfCli(RecoverRestore),
                     One(Prepared, Some(0), Accepting, map[0 := 0], RecoverRestored(0, Prepared)));
  }

  /** A host that serves although the journal says its generation is disconnected. */
  ghost predicate Orphan(s: State, p: nat) {
    && Inv(s)
    && p in s.hosts && s.hosts[p].pc.Accepting? && !s.hosts[p].stopping
    && s.journal == Record(s.hosts[p].gen, Disconnected)
    && (forall id: nat :: InHand(s.hosts[p], id) ==> !IsStop(s, id))
    && (match s.cli
        case Idle => true
        case ConnectIdle => true
        case _ => false)
  }

  lemma OrphanReachable() returns (s: State)
    ensures s in ReachedFrom(INIT) && Orphan(s, 0)
  {
    ReachedIsClosed();
    LateHost(ReachedFrom(INIT));
    s := One(Disconnected, Some(0), Accepting, map[0 := 0], ConnectIdle);
    Advance(ReachedFrom(INIT), One(Prepared, Some(0), Accepting, map[0 := 0], RecoverRestored(0, Prepared)),
            OfCli(RecoverSave), s);
    ReachedInv(s);
  }

  lemma OtherHostKeepsOrphan(s: State, q: nat, e: HostEvent, p: nat)
    requires Orphan(s, p) && q != p && HostStep(s, q, e).Some?
    ensures Orphan(HostStep(s, q, e).value, p)
  {
    HostStepKeeps(s, q, e);
    var t := HostStep(s, q, e).value;
    assert t.hosts[p] == s.hosts[p];
    forall id: nat | InHand(s.hosts[p], id) ensures !IsStop(t, id) {
      if s.hosts[q].reading.Some? {
        assert InHand(s.hosts[q], s.hosts[q].reading.value);
      }
      assert t.conns[id] == s.conns[id];
    }
  }

  lemma AnswersKeepOrphan(s: State, e: HostEvent, p: nat)
    requires Orphan(s, p) && HostStep(s, p, e).Some? && (e.Read? || e.ReadTimeout? || e.Accept?)
    ensures Orphan(HostStep(s, p, e).value, p)
  {
    HostStepKeeps(s, p, e);
    HostStepHands(s, p, e);
    var h := s.hosts[p];
    if h.reading.Some? {
      assert InHand(h, h.reading.value) && !IsStop(s, h.reading.value);
    }
  }

  /** With the journal at `Disconnected` and the lease taken, commands come and go unheard. */
  lemma CommandsGiveUp(s: State, e: CliEvent)
    requires s.journal.Record? && s.journal.phase.Disconnected? && s.lease.Some?
    requires s.cli.Idle? || s.cli.ConnectIdle?
    requires CliStep(s, e).Some?
    ensures CliStep(s, e).value == s.(cli := Idle) || CliStep(s, e).value == s.(cli := ConnectIdle)
  {
    OnlyConnects(s, e);
    if e.Quit? {
      assert Abandon(s) == s.(cli := Idle);
    } else {
      RecoverGivesUp(s, e);
    }
  }

  /** The steps of a connect that finds the journal at `Disconnected`. */
  predicate IsConnect(e: CliEvent) {
    e.ConnectBegin? || e.ConnectPromote? || e.RecoverPoll? || e.RecoverRestore? || e.RecoverSave? || e.ConnectPoll?
  }

  lemma OnlyConnects(s: State, e: CliEvent)
    requires s.journal.Record? && s.journal.phase.Disconnected?
    requires s.cli.Idle? || s.cli.ConnectIdle?
    requires CliStep(s, e).Some?
    ensures !e.Quit? ==> IsConnect(e) && CliStep(s, e) == RecoverStep(s, e)
  {
  }

  lemma RecoverGivesUp(s: State, e: CliEvent)
    requires s.journal.Record? && s.journal.phase.Disconnected? && s.lease.Some?
    requires s.cli.Idle? || s.cli.ConnectIdle?
    requires IsConnect(e) && RecoverStep(s, e).Some?
    ensures RecoverStep(s, e).value == s.(cli := Idle) || RecoverStep(s, e).value == s.(cli := ConnectIdle)
  {
  }

  lemma CommandKeepsOrphan(s: State, e: CliEvent, p: nat)
    requires Orphan(s, p) && CliStep(s, e).Some?
    ensures Orphan(CliStep(s, e).value, p)
  {
    assert HoldsLease(s.hosts[p]);
    CommandsGiveUp(s, e);
    JournalFrame(s, CliStep(s, e).value);
  }

  lemma StepKeepsOrphan(s: State, e: Event, p: nat)
    requires Orphan(s, p) && Step(s, e).Some?
    requires e.OfHost? && e.pid == p ==> e.he.Read? || e.he.ReadTimeout? || e.he.Accept?
    ensures Orphan(Step(s, e).value, p)
  {
    match e
    case OfHost(q, he) =>
      if q == p {
        AnswersKeepOrphan(s, he, p);
      } else {
        OtherHostKeepsOrphan(s, q, he, p);
      }
    case OfCli(ce) => CommandKeepsOrphan(s, ce, p);
  }

  /** Nothing but the host itself, or a signal to it, ends an orphan: no command of any later
      run stops it, takes it over or journals a new generation beside it. */
  lemma {:induction false} OrphanStays(s: State, events: seq<Event>, p: nat)
    requires Orphan(s, p) && Run(s, events).Some?
    requires forall i :: 0 <= i < |events| && events[i].OfHost? && events[i].pid == p ==>
               events[i].he.Read? || events[i].he.ReadTimeout? || events[i].he.Accept?
    ensures Orphan(Run(s, events).value, p)
    decreases |events|
  {
    if events != [] {
      StepKeepsOrphan(s, events[0], p);
      OrphanStays(Step(s, events[0]).value, events[1..], p);
    }
  }

  /** A recovery that found `phase` and is about to save `Disconnected` for `gen`. */
  ghost predicate Recovers(s: State, phase: Phase, gen: nat) {
    s in ReachedFrom(INIT) && s.cli == RecoverRestored(gen, phase)
  }

  /** Whatever run goes on from a recovery that found `phase`, the recovered generation never
      serves again. */
  ghost predicate RecoveryAlwaysFinal(phase: Phase) {
    forall s: State, gen: nat, t: State, p: nat ::
      Recovers(s, phase, gen) && t in ReachedFrom(CliStep(s, RecoverSave).value) && p in t.hosts && t.hosts[p].gen == gen
      ==> !Serves(t.hosts[p])
  }

  /** A recovery is final exactly when the phase it found on disk was `Disconnecting`. */
  lemma RecoveryFinalExactly(phase: Phase)
    requires phase.Prepared? || phase.Disconnecting?
    ensures RecoveryAlwaysFinal(phase) <==> phase.Disconnecting?
  {
    if phase.Disconnecting? {
      forall s: State, gen: nat, t: State, p: nat
        | Recovers(s, phase, gen) && t in ReachedFrom(CliStep(s, RecoverSave).value) && p in t.hosts && t.hosts[p].gen == gen
        ensures !Serves(t.hosts[p])
      {
        FinalDisconnect(s, RecoverSave, gen, t, p);
      }
    } else {
      ReachedIsClosed();
      LateHost(ReachedFrom(INIT));
      var s := One(Prepared, Some(0), Accepting, map[0 := 0], RecoverRestored(0, Prepared));
      assert Recovers(s, phase, 0);
      var t := CliStep(s, RecoverSave).value;
      assert Run(t, []) == Some(t);
      assert t in ReachedFrom(t) && Serves(t.hosts[0]);
    }
  }

  // ---------------------------------------------------------------- the lost stop

  /** A disconnect that tried to stop the host of `gen` but whose request never settled. */
  ghost predicate LostStop(s: State, p: nat) {
    && s.cli.StopTried? && !s.cli.settled
    && p in s.hosts && s.hosts[p].gen == s.cli.gen && s.hosts[p].pc.Accepting?
    && !StopPending(s, s.hosts[p])
  }

  lemma HostUp(r: iset<State>)
    requires StepClosed(r)
    ensures One(Prepared, Some(0), Accepting, map[0 := 0], Idle) in r
  {
    Launched(r);
    HostMoves(r, Idle, None, Spawned, map[], Start, None, Admitted, map[]);
    ComesUp(r, Idle);
  }

  /** A disconnect of generation 0 up to the point where it opens its stop connection. */
  lemma Disconnects(r: iset<State>, s: State)
    requires StepClosed(r) && s in r && s.cli.Idle? && s.journal == Record(0, Prepared)
    ensures s.(journal := Record(0, Disconnecting), cli := DisconnectRestored(0, false)) in r
  {
    Advance(r, s, OfCli(DisconnectBegin), s.(cli := DisconnectLoaded(0)));
    var t := s.(journal := Record(0, Disconnecting));
    Advance(r, s.(cli := DisconnectLoaded(0)), OfCli(DisconnectSave), t.(cli := DisconnectSaved(0)));
    Advance(r, t.(cli := DisconnectSaved(0)), OfCli(DisconnectRestore(false)), t.(cli := DisconnectRestored(0, false)));
  }

  /** A stop connection (number 7) at the host, in one of its stages. */
  function Stopping(queue: seq<nat>, reading: Option<nat>, conn: Conn, cli: Cli): State {
    State(Record(0, Disconnecting), Some(0), map[0 := Host(0, Accepting, false, queue, reading)], map[0 := 0],
          map[7 := conn], {0}, cli)
  }

  lemma OpensStop(r: iset<State>)
    requires StepClosed(r)
    requires One(Disconnecting, Some(0), Accepting, map[0 := 0], DisconnectRestored(0, false)) in r
    ensures Stopping([7], None, Waiting, StopOpened(0, false, 7)) in r
  {
    assert [] + [7] == [7];
    Advance(r, One(Disconnecting, Some(0), Accepting, map[0 := 0], DisconnectRestored(0, false)), OfCli(StopOpen(7)),
            Stopping([7], None, Waiting, StopOpened(0, false, 7)));
  }

  lemma TimesOut(r: iset<State>)
    requires StepClosed(r) && Stopping([7], None, Waiting, StopOpened(0, false, 7)) in r
    ensures Stopping([], None, Dropped, StopOpened(0, false, 7)) in r
  {
    assert [7][1..] == [];
    Advance(r, Stopping([7], None, Waiting, StopOpened(0, false, 7)), OfHost(0, Accept),
            Stopping([], Some(7), Waiting, StopOpened(0, false, 7)));
    Advance(r, Stopping([], Some(7), Waiting, StopOpened(0, false, 7)), OfHost(0, ReadTimeout),
            Stopping([], None, Dropped, StopOpened(0, false, 7)));
  }

  /** The host accepts the stop connection and gives up reading before the request arrives. */
  lemma LostToTimeout() returns (s: State)
    ensures s in ReachedFrom(INIT) && LostStop(s, 0)
  {
    var r := ReachedFrom(INIT);
    ReachedIsClosed();
    HostUp(r);
    Disconnects(r, One(Prepared, Some(0), Accepting, map[0 := 0], Idle));
    OpensStop(r);
    TimesOut(r);
    s := Stopping([], None, Dropped, StopTried(0, false, false));
    Advance(r, Stopping([], None, Dropped, StopOpened(0, false, 7)), OfCli(StopSend), s);
  }

  /** A host with `queue` waiting, every connection of it dead. */
  function Clogged(queue: seq<nat>, conns: map<nat, Conn>): State {
    State(Record(0, Prepared), Some(0), map[0 := Host(0, Accepting, false, queue, None)], map[0 := 0], conns, {0}, Idle)
  }

  /** A backlog reached by a query whose connection it holds last. */
  function Linked(queue: seq<nat>, conns: map<nat, Conn>, id: nat): State {
    Clogged(queue + [id], conns[id := Waiting]).(cli := Query(0, Opened(id)))
  }

  lemma LinkedQuery(r: iset<State>, queue: seq<nat>, conns: map<nat, Conn>, id: nat)
    requires StepClosed(r) && Clogged(queue, conns) in r && |queue| <= BACKLOG && id !in conns
    ensures Linked(queue, conns, id) in r
  {
    var s := Clogged(queue, conns);
    Advance(r, s, OfCli(QueryBegin), s.(cli := Query(0, NoTalk)));
    Advance(r, s.(cli := Query(0, NoTalk)), OfCli(TalkOpen(id)), Linked(queue, conns, id));
  }

  /** A query that dies with its connection open leaves it in the host's backlog. */
  lemma DeadQuery(r: iset<State>, queue: seq<nat>, conns: map<nat, Conn>, id: nat)
    requires StepClosed(r) && Clogged(queue, conns) in r && |queue| <= BACKLOG && id !in conns
    ensures Clogged(queue + [id], conns[id := HungUp]) in r
  {
    LinkedQuery(r, queue, conns, id);
    Advance(r, Linked(queue, conns, id), OfCli(Quit), Clogged(queue + [id], conns[id := HungUp]));
  }

  lemma FullBacklog(r: iset<State>)
    requires StepClosed(r)
    ensures Clogged([] + [0] + [1] + [2], map[][0 := HungUp][1 := HungUp][2 := HungUp]) in r
  {
    HostUp(r);
    DeadQuery(r, [], map[], 0);
    DeadQuery(r, [] + [0], map[][0 := HungUp], 1);
    DeadQuery(r, [] + [0] + [1], map[][0 := HungUp][1 := HungUp], 2);
  }

  /** Three dead connections fill the backlog, so the stop request cannot be delivered. */
  lemma LostToBacklog() returns (s: State)
    ensures s in ReachedFrom(INIT) && LostStop(s, 0)
  {
    var r := ReachedFrom(INIT);
    ReachedIsClosed();
    FullBacklog(r);
    var conns := map[][0 := HungUp][1 := HungUp][2 := HungUp];
    var full := Clogged([] + [0] + [1] + [2], conns);
    Disconnects(r, full);
    var ending := full.(journal := Record(0, Disconnecting));
    s := ending.(cli := StopTried(0, false, false));
    Advance(r, ending.(cli := DisconnectRestored(0, false)), OfCli(StopFull), s);
    assert forall id: nat :: id in conns ==> conns[id] == HungUp;
  }
}
