/**
 No reachable state is a dead end: whatever commands and hosts left behind, once the process that
 holds the lease has died a disconnect can finish, and a connect can bring up a fresh generation.
 */
module LifetimeProgress {
  import opened Wrappers
  import opened LifetimeProtocol
  import opened LifetimeSafety
  import opened LifetimeWitnesses
  import opened LifetimePhases

  /** `t` can follow `s` in some run. */
  ghost predicate Leads(s: State, t: State) {
    exists events :: Run(s, events) == Some(t)
  }

  lemma LeadsNowhere(s: State)
    ensures Leads(s, s)
  {
    assert Run(s, []) == Some(s);
  }

  lemma LeadsOn(s: State, t: State, e: Event, u: State)
    requires Leads(s, t) && Step(t, e) == Some(u)
    ensures Leads(s, u)
  {
    var events :| Run(s, events) == Some(t);
    RunAppend(s, events, [e]);
    assert [e][1..] == [];
    assert Run(s, events + [e]) == Some(u);
  }

  lemma CommandLeads(s: State, t: State, ce: CliEvent, u: State)
    requires Leads(s, t) && CliStep(t, ce) == Some(u)
    ensures Leads(s, u)
  {
    LeadsOn(s, t, OfCli(ce), u);
  }

  // ---------------------------------------------------------------- freeing the lease

  predicate LeaseOwned(s: State) {
    s.lease.Some? ==> s.lease.value in s.hosts
  }

  lemma CommandKeepsOwner(s: State, e: CliEvent, t: State)
    requires Inv(s) && CliStep(s, e) == Some(t) && LeaseOwned(s)
    ensures LeaseOwned(t)
  {
    CliFollows(s, e, t);
    CliKeepsStops(s, e);
  }

  lemma HostKeepsOwner(s: State, p: nat, e: HostEvent, t: State)
    requires HostStep(s, p, e) == Some(t) && LeaseOwned(s)
    ensures LeaseOwned(t)
  {
    HostStepLocal(s, p, e);
  }

  lemma {:induction false} LeaseHasOwner(events: seq<Event>, s: State)
    requires Run(INIT, events) == Some(s)
    ensures LeaseOwned(s)
    decreases |events|
  {
    if events != [] {
      var before := ByLastEvent(events, s);
      LeaseHasOwner(Front(events), before);
      match Last(events)
      case OfHost(p, he) => HostKeepsOwner(before, p, he, s);
      case OfCli(ce) => CommandKeepsOwner(before, ce, s);
    }
  }

  /** The holder of the lease is a host that has it and has not gone. */
  predicate LeaseHeld(s: State) {
    s.lease.Some? ==> s.lease.value in s.hosts && HoldsLease(s.hosts[s.lease.value])
  }

  /** A host goes and leaves an engine guardian behind that still holds the lease. */
  predicate Lingers(e: Event) {
    e.OfHost? && (e.he == Close(true) || e.he == Crash(true))
  }

  lemma HostKeepsHeld(s: State, p: nat, e: HostEvent, t: State)
    requires HostStep(s, p, e) == Some(t) && LeaseHeld(s) && !Lingers(OfHost(p, e))
    ensures LeaseHeld(t)
  {
  }

  lemma CommandKeepsHeld(s: State, e: CliEvent, t: State)
    requires Inv(s) && CliStep(s, e) == Some(t) && LeaseHeld(s)
    ensures LeaseHeld(t)
  {
    CliFollows(s, e, t);
    CliKeepsStops(s, e);
  }

  /** Where no guardian is left behind, the lease is held by a host that has not gone: whoever closes
      or dies gives it back. */
  lemma {:induction false} LeaseGivenBack(events: seq<Event>, s: State)
    requires Run(INIT, events) == Some(s) && forall i :: 0 <= i < |events| ==> !Lingers(events[i])
    ensures LeaseHeld(s)
    decreases |events|
  {
    if events != [] {
      var before := ByLastEvent(events, s);
      LeaseGivenBack(Front(events), before);
      match Last(events)
      case OfHost(p, he) => HostKeepsHeld(before, p, he, s);
      case OfCli(ce) => CommandKeepsHeld(before, ce, s);
    }
  }

  /** No command runs and the lease is free. */
  predicate AtRest(s: State) {
    s.cli.Idle? && s.lease.None?
  }

  lemma QuitStep(s: State)
    requires Inv(s)
    ensures CliStep(s, Quit).Some?
    ensures var t := CliStep(s, Quit).value;
      t.cli.Idle? && t.journal == s.journal && t.used == s.used && t.hosts == s.hosts && t.lease == s.lease
  {
  }

  /** The holder of the lease dies, and its guardian after it. */
  lemma HolderDies(s: State, p: nat)
    requires s.lease == Some(p) && p in s.hosts
    ensures exists e, t :: Step(s, e) == Some(t) && t.lease.None? && t.journal == s.journal && t.used == s.used && t.cli == s.cli
  {
    var e := if s.hosts[p].pc.Gone? then OfHost(p, GuardianExit) else OfHost(p, Crash(false));
    assert Step(s, e).Some?;
  }

  lemma ComesToRest(s: State) returns (t: State)
    requires s in ReachedFrom(INIT)
    ensures Leads(s, t) && AtRest(t) && t.journal == s.journal && t.used == s.used
  {
    ReachedInv(s);
    var events :| Run(INIT, events) == Some(s);
    LeaseHasOwner(events, s);
    QuitStep(s);
    LeadsNowhere(s);
    var idle := CliStep(s, Quit).value;
    CommandLeads(s, s, Quit, idle);
    t := idle;
    if t.lease.Some? {
      HolderDies(idle, idle.lease.value);
      var e, u :| Step(idle, e) == Some(u) && u.lease.None? && u.journal == idle.journal && u.used == idle.used && u.cli == idle.cli;
      LeadsOn(s, idle, e, u);
      t := u;
    }
  }

  // ---------------------------------------------------------------- finishing a disconnect

  lemma NobodyListens(s: State, gen: nat)
    requires Inv(s) && s.lease.None?
    ensures Target(s, gen).None?
  {
  }

  /** The disconnect of an abandoned generation up to its poll of the lease. */
  lemma DisconnectsUnheard(s: State, t: State, failed: bool)
    requires Inv(t) && Leads(s, t) && AtRest(t) && !Stopped(t.journal)
    ensures var gen := t.journal.gen;
      Leads(s, t.(journal := Record(gen, Disconnecting), cli := StopTried(gen, failed, true)))
  {
    var gen := t.journal.gen;
    CommandLeads(s, t, DisconnectBegin, t.(cli := DisconnectLoaded(gen)));
    var u := t.(journal := Record(gen, Disconnecting));
    CommandLeads(s, t.(cli := DisconnectLoaded(gen)), DisconnectSave, u.(cli := DisconnectSaved(gen)));
    CommandLeads(s, u.(cli := DisconnectSaved(gen)), DisconnectRestore(failed), u.(cli := DisconnectRestored(gen, failed)));
    NobodyListens(t, gen);
    assert Target(u.(cli := DisconnectRestored(gen, failed)), gen).None?;
    CommandLeads(s, u.(cli := DisconnectRestored(gen, failed)), StopRefused, u.(cli := StopTried(gen, failed, true)));
  }

  lemma DisconnectFinishes(s: State, t: State, gen: nat, failed: bool)
    requires Leads(s, t) && t.cli == StopTried(gen, failed, true) && t.lease.None?
    ensures Leads(s, t.(paths := t.paths - {gen}, journal := Record(gen, if failed then RestoreRequired else Disconnected), cli := Idle))
  {
    CommandLeads(s, t, DisconnectPoll, t.(cli := DisconnectQuiet(gen, failed)));
    var u := t.(paths := t.paths - {gen});
    CommandLeads(s, t.(cli := DisconnectQuiet(gen, failed)), DisconnectUnlink, u.(cli := DisconnectUnlinked(gen, failed)));
    CommandLeads(s, u.(cli := DisconnectUnlinked(gen, failed)), DisconnectFinish,
                 u.(journal := Record(gen, if failed then RestoreRequired else Disconnected), cli := Idle));
  }

  lemma ComesToEnd(s: State) returns (t: State)
    requires s in ReachedFrom(INIT)
    ensures Leads(s, t) && AtRest(t) && Stopped(t.journal) && t.used == s.used
  {
    ReachedInv(s);
    t := ComesToRest(s);
    var events :| Run(s, events) == Some(t);
    RunKeeps(s, events);
    if !Stopped(t.journal) {
      var gen := t.journal.gen;
      DisconnectsUnheard(s, t, false);
      var tried := t.(journal := Record(gen, Disconnecting), cli := StopTried(gen, false, true));
      DisconnectFinishes(s, tried, gen, false);
      t := tried.(paths := tried.paths - {gen}, journal := Record(gen, Disconnected), cli := Idle);
    }
  }

  lemma Draws(s: State, t: State, gen: nat)
    requires Leads(s, t) && t.cli.ConnectFree? && gen !in t.used
    ensures Leads(s, t.(journal := Record(gen, Prepared), used := t.used + {gen}, cli := ConnectPrepared(gen)))
  {
    CommandLeads(s, t, ConnectJournal(gen), t.(journal := Record(gen, Prepared), used := t.used + {gen}, cli := ConnectPrepared(gen)));
  }

  /** From every reachable state whose generation is not disconnected a disconnect whose
      restoration fails can run to its end and asks for the restoration. */
  lemma FailureIsKept(s: State) returns (t: State)
    requires s in ReachedFrom(INIT) && !Stopped(s.journal)
    ensures Leads(s, t) && t.journal == Record(s.journal.gen, RestoreRequired)
  {
    ReachedInv(s);
    var rest := ComesToRest(s);
    var events :| Run(s, events) == Some(rest);
    RunKeeps(s, events);
    var gen := s.journal.gen;
    DisconnectsUnheard(s, rest, true);
    var tried := rest.(journal := Record(gen, Disconnecting), cli := StopTried(gen, true, true));
    DisconnectFinishes(s, tried, gen, true);
    t := tried.(paths := tried.paths - {gen}, journal := Record(gen, RestoreRequired), cli := Idle);
  }

  // ---------------------------------------------------------------- a launch

  lemma FreshNat(taken: set<nat>) returns (n: nat)
    ensures n !in taken
  {
    n := 0;
    if taken != {} {
      var m: nat :| m in taken && forall x: nat :: x in taken ==> x <= m by { Largest(taken); }
      n := m + 1;
    }
  }

  lemma Largest(taken: set<nat>)
    requires taken != {}
    ensures exists m: nat :: m in taken && forall x: nat :: x in taken ==> x <= m
  {
    var x: nat :| x in taken;
    if taken != {x} {
      var rest := taken - {x};
      assert taken == rest + {x};
      Largest(rest);
      var m: nat :| m in rest && forall y: nat :: y in rest ==> y <= m;
      assert if x <= m then m in taken && (forall y: nat :: y in taken ==> y <= m) else x in taken && forall y: nat :: y in taken ==> y <= x;
    }
  }

  /** `s` with generation `gen` journalled, its host, and the command that launched it. */
  function Up(s: State, gen: nat, phase: Phase, p: nat, h: Host, lease: Option<nat>, paths: map<nat, nat>,
                    conns: map<nat, Conn>, cli: Cli): State {
    State(Record(gen, phase), lease, s.hosts[p := h], paths, conns, s.used + {gen}, cli)
  }

  lemma Prepares(s: State, e: State, gen: nat)
    requires Leads(s, e) && AtRest(e) && Stopped(e.journal) && gen !in e.used
    ensures Leads(s, e.(journal := Record(gen, Prepared), used := e.used + {gen}, cli := ConnectPrepared(gen)))
  {
    CommandLeads(s, e, ConnectBegin, e.(cli := ConnectIdle));
    CommandLeads(s, e.(cli := ConnectIdle), ConnectPoll, e.(cli := ConnectFree));
    Draws(s, e.(cli := ConnectFree), gen);
  }

  lemma Spawns(s: State, e: State, gen: nat, p: nat)
    requires Leads(s, e.(journal := Record(gen, Prepared), used := e.used + {gen}, cli := ConnectPrepared(gen)))
    requires p !in e.hosts && e.lease.None?
    ensures Leads(s, Up(e, gen, Prepared, p, Host(gen, Spawned, false, [], None), None, e.paths, e.conns, ConnectWaiting(gen, p, NoTalk)))
  {
    var drawn := e.(journal := Record(gen, Prepared), used := e.used + {gen}, cli := ConnectPrepared(gen));
    CommandLeads(s, drawn, ConnectWrite, drawn.(cli := ConnectConfigured(gen)));
    CommandLeads(s, drawn.(cli := ConnectConfigured(gen)), ConnectSpawn(p),
                 Up(e, gen, Prepared, p, Host(gen, Spawned, false, [], None), None, e.paths, e.conns, ConnectWaiting(gen, p, NoTalk)));
  }

  /** One move of the launched host, which changes its place, the lease or the socket files. */
  lemma HostMoves(s: State, e: State, gen: nat, p: nat, cli: Cli, he: HostEvent,
                  pc: Pc, lease: Option<nat>, paths: map<nat, nat>, pc': Pc, lease': Option<nat>, paths': map<nat, nat>)
    requires Leads(s, Up(e, gen, Prepared, p, Host(gen, pc, false, [], None), lease, paths, e.conns, cli))
    requires HostStep(Up(e, gen, Prepared, p, Host(gen, pc, false, [], None), lease, paths, e.conns, cli), p, he).Some?
    requires SameState(HostStep(Up(e, gen, Prepared, p, Host(gen, pc, false, [], None), lease, paths, e.conns, cli), p, he).value,
                       Up(e, gen, Prepared, p, Host(gen, pc', false, [], None), lease', paths', e.conns, cli))
    ensures Leads(s, Up(e, gen, Prepared, p, Host(gen, pc', false, [], None), lease', paths', e.conns, cli))
  {
    LeadsOn(s, Up(e, gen, Prepared, p, Host(gen, pc, false, [], None), lease, paths, e.conns, cli), OfHost(p, he),
            Up(e, gen, Prepared, p, Host(gen, pc', false, [], None), lease', paths', e.conns, cli));
  }

  lemma Same(s: State, gen: nat, p: nat, h: Host, k: Host, lease: Option<nat>, paths: map<nat, nat>, conns: map<nat, Conn>, cli: Cli)
    ensures Up(s, gen, Prepared, p, h, lease, paths, conns, cli).hosts[p := k]
         == Up(s, gen, Prepared, p, k, lease, paths, conns, cli).hosts
  {
    assert s.hosts[p := h][p := k] == s.hosts[p := k];
  }

  lemma TakesLease(s: State, e: State, gen: nat, p: nat, cli: Cli)
    requires Leads(s, Up(e, gen, Prepared, p, Host(gen, Spawned, false, [], None), None, e.paths, e.conns, cli))
    ensures Leads(s, Up(e, gen, Prepared, p, Host(gen, Rechecked, false, [], None), Some(p), e.paths, e.conns, cli))
  {
    forall h: Host, k: Host, lease: Option<nat>, paths: map<nat, nat> { Same(e, gen, p, h, k, lease, paths, e.conns, cli); }
    HostMoves(s, e, gen, p, cli, Start, Spawned, None, e.paths, Admitted, None, e.paths);
    HostMoves(s, e, gen, p, cli, Lock, Admitted, None, e.paths, Leased, Some(p), e.paths);
    HostMoves(s, e, gen, p, cli, Recheck, Leased, Some(p), e.paths, Checked, Some(p), e.paths);
    HostMoves(s, e, gen, p, cli, Prebind, Checked, Some(p), e.paths, Rechecked, Some(p), e.paths);
  }

  lemma OpensSocket(s: State, e: State, gen: nat, p: nat, cli: Cli)
    requires Leads(s, Up(e, gen, Prepared, p, Host(gen, Rechecked, false, [], None), Some(p), e.paths, e.conns, cli))
    ensures Leads(s, Up(e, gen, Prepared, p, Host(gen, Accepting, false, [], None), Some(p), e.paths[gen := p], e.conns, cli))
  {
    forall h: Host, k: Host, lease: Option<nat>, paths: map<nat, nat> { Same(e, gen, p, h, k, lease, paths, e.conns, cli); }
    HostMoves(s, e, gen, p, cli, Bind, Rechecked, Some(p), e.paths, Bound, Some(p), e.paths[gen := p]);
    HostMoves(s, e, gen, p, cli, Listen, Bound, Some(p), e.paths[gen := p], Listening, Some(p), e.paths[gen := p]);
    HostMoves(s, e, gen, p, cli, Serve, Listening, Some(p), e.paths[gen := p], Serving, Some(p), e.paths[gen := p]);
    HostMoves(s, e, gen, p, cli, FinalCheck, Serving, Some(p), e.paths[gen := p], Accepting, Some(p), e.paths[gen := p]);
  }

  /** The host accepting, with the command's status connection in one of its stages. */
  function Talking(e: State, gen: nat, p: nat, queue: seq<nat>, reading: Option<nat>, id: nat, conn: Conn, phase: Phase, cli: Cli): State {
    Up(e, gen, phase, p, Host(gen, Accepting, false, queue, reading), Some(p), e.paths[gen := p], e.conns[id := conn], cli)
  }

  lemma HostChanges(s: State, p: nat, h: Host, k: Host, id: nat, c: Conn, d: Conn)
    ensures s.hosts[p := h][p := k] == s.hosts[p := k] && s.conns[id := c][id := d] == s.conns[id := d]
  {
  }

  /** A command that waits for its generation, or found it prepared, before it has asked. */
  predicate MayAsk(c: Cli, gen: nat, p: nat) {
    c == ConnectWaiting(gen, p, NoTalk) || c == ConnectLoaded(gen, Prepared, NoTalk)
  }

  lemma Opens(s: State, e: State, gen: nat, p: nat, id: nat, cli: Cli)
    requires id !in e.conns && MayAsk(cli, gen, p)
    requires Leads(s, Up(e, gen, Prepared, p, Host(gen, Accepting, false, [], None), Some(p), e.paths[gen := p], e.conns, cli))
    ensures Leads(s, Talking(e, gen, p, [id], None, id, Waiting, Prepared, WithTalk(cli, Opened(id))))
  {
    var up := Up(e, gen, Prepared, p, Host(gen, Accepting, false, [], None), Some(p), e.paths[gen := p], e.conns, cli);
    var open := Talking(e, gen, p, [id], None, id, Waiting, Prepared, WithTalk(cli, Opened(id)));
    assert [] + [id] == [id];
    HostChanges(e, p, up.hosts[p], open.hosts[p], id, Waiting, Waiting);
    assert Target(up, gen) == Some(p);
    CommandLeads(s, up, TalkOpen(id), open);
  }

  lemma Sends(s: State, e: State, gen: nat, p: nat, id: nat, cli: Cli)
    requires MayAsk(cli, gen, p)
    requires Leads(s, Talking(e, gen, p, [id], None, id, Waiting, Prepared, WithTalk(cli, Opened(id))))
    ensures Leads(s, Talking(e, gen, p, [id], None, id, Sent(false), Prepared, WithTalk(cli, Asked(id))))
  {
    var open := Talking(e, gen, p, [id], None, id, Waiting, Prepared, WithTalk(cli, Opened(id)));
    HostChanges(e, p, open.hosts[p], open.hosts[p], id, Waiting, Sent(false));
    CommandLeads(s, open, TalkSend, Talking(e, gen, p, [id], None, id, Sent(false), Prepared, WithTalk(cli, Asked(id))));
  }

  lemma Accepts(s: State, e: State, gen: nat, p: nat, id: nat, cli: Cli)
    requires Leads(s, Talking(e, gen, p, [id], None, id, Sent(false), Prepared, cli))
    ensures Leads(s, Talking(e, gen, p, [], Some(id), id, Sent(false), Prepared, cli))
  {
    var asked := Talking(e, gen, p, [id], None, id, Sent(false), Prepared, cli);
    var reading := Talking(e, gen, p, [], Some(id), id, Sent(false), Prepared, cli);
    assert [id][1..] == [];
    HostChanges(e, p, asked.hosts[p], reading.hosts[p], id, Sent(false), Sent(false));
    LeadsOn(s, asked, OfHost(p, Accept), reading);
  }

  lemma Answers(s: State, e: State, gen: nat, p: nat, id: nat, cli: Cli)
    requires Leads(s, Talking(e, gen, p, [], Some(id), id, Sent(false), Prepared, cli))
    ensures Leads(s, Talking(e, gen, p, [], None, id, Answered(true), Prepared, cli))
  {
    var reading := Talking(e, gen, p, [], Some(id), id, Sent(false), Prepared, cli);
    var answered := Talking(e, gen, p, [], None, id, Answered(true), Prepared, cli);
    HostChanges(e, p, reading.hosts[p], answered.hosts[p], id, Sent(false), Answered(true));
    LeadsOn(s, reading, OfHost(p, Read(true)), answered);
  }

  lemma Connects(s: State, e: State, gen: nat, p: nat, id: nat, cli: Cli)
    requires MayAsk(cli, gen, p) && Leads(s, Talking(e, gen, p, [], None, id, Answered(true), Prepared, WithTalk(cli, Asked(id))))
    ensures Leads(s, Talking(e, gen, p, [], None, id, Answered(true), Connected, Query(gen, NoTalk)))
  {
    CommandLeads(s, Talking(e, gen, p, [], None, id, Answered(true), Prepared, WithTalk(cli, Asked(id))),
                 if cli.ConnectWaiting? then ConnectReady else ConnectPromote,
                 Talking(e, gen, p, [], None, id, Answered(true), Connected, Query(gen, NoTalk)));
  }

  lemma AskedAndConnected(s: State, e: State, gen: nat, p: nat, id: nat, cli: Cli)
    requires id !in e.conns && MayAsk(cli, gen, p)
    requires Leads(s, Up(e, gen, Prepared, p, Host(gen, Accepting, false, [], None), Some(p), e.paths[gen := p], e.conns, cli))
    ensures Leads(s, Talking(e, gen, p, [], None, id, Answered(true), Connected, Query(gen, NoTalk)))
  {
    Opens(s, e, gen, p, id, cli);
    Sends(s, e, gen, p, id, cli);
    Accepts(s, e, gen, p, id, WithTalk(cli, Asked(id)));
    Answers(s, e, gen, p, id, WithTalk(cli, Asked(id)));
    Connects(s, e, gen, p, id, cli);
  }

  lemma LaunchDies(s: State, e: State, gen: nat, p: nat)
    requires Leads(s, Up(e, gen, Prepared, p, Host(gen, Accepting, false, [], None), Some(p), e.paths[gen := p], e.conns,
                         ConnectWaiting(gen, p, NoTalk)))
    ensures Leads(s, Up(e, gen, Prepared, p, Host(gen, Accepting, false, [], None), Some(p), e.paths[gen := p], e.conns,
                        ConnectLoaded(gen, Prepared, NoTalk)))
  {
    var up := Up(e, gen, Prepared, p, Host(gen, Accepting, false, [], None), Some(p), e.paths[gen := p], e.conns,
                 ConnectWaiting(gen, p, NoTalk));
    CommandLeads(s, up, Quit, up.(cli := Idle));
    CommandLeads(s, up.(cli := Idle), ConnectBegin, up.(cli := ConnectLoaded(gen, Prepared, NoTalk)));
  }

  /** From every reachable state some run brings up a host of any generation not drawn before and
      journals it as connected, even if the connect that launched it dies and another takes over. */
  lemma CanConnect(s: State, gen: nat, takeover: bool) returns (t: State, p: nat)
    requires s in ReachedFrom(INIT) && gen !in s.used
    ensures Leads(s, t) && t.journal == Record(gen, Connected)
    ensures p in t.hosts && t.hosts[p].gen == gen && t.hosts[p].pc == Accepting && t.lease == Some(p)
  {
    var e := ComesToEnd(s);
    p := FreshNat(e.hosts.Keys);
    var id := FreshNat(e.conns.Keys);
    Prepares(s, e, gen);
    Spawns(s, e, gen, p);
    TakesLease(s, e, gen, p, ConnectWaiting(gen, p, NoTalk));
    OpensSocket(s, e, gen, p, ConnectWaiting(gen, p, NoTalk));
    if takeover {
      LaunchDies(s, e, gen, p);
      AskedAndConnected(s, e, gen, p, id, ConnectLoaded(gen, Prepared, NoTalk));
    } else {
      AskedAndConnected(s, e, gen, p, id, ConnectWaiting(gen, p, NoTalk));
    }
    t := Talking(e, gen, p, [], None, id, Answered(true), Connected, Query(gen, NoTalk));
  }

  /** A launch whose host has gone can be given up, and the generation ends as disconnected if the
      lease is free. */
  lemma CanGiveUp(s: State, p: nat) returns (t: State)
    requires s.cli.ConnectWaiting? && s.cli.talk.NoTalk? && s.cli.child == p
    requires p in s.hosts && s.hosts[p].pc.Gone? && s.lease.None?
    ensures Leads(s, t) && t == s.(journal := Record(s.cli.gen, Disconnected), cli := Idle)
  {
    var gen := s.cli.gen;
    FailsToStart(s, p);
    Restores(s, s.(cli := StartFailed(gen)), gen);
    t := s.(journal := Record(gen, Disconnected), cli := Idle);
  }

  lemma FailsToStart(s: State, p: nat)
    requires s.cli.ConnectWaiting? && s.cli.talk.NoTalk? && s.cli.child == p && p in s.hosts && s.hosts[p].pc.Gone?
    ensures Leads(s, s.(cli := StartFailed(s.cli.gen)))
  {
    LeadsNowhere(s);
    CommandLeads(s, s, ConnectChildDead, s.(cli := StartFailed(s.cli.gen)));
  }

  lemma Restores(s: State, failed: State, gen: nat)
    requires Leads(s, failed) && failed.cli == StartFailed(gen) && failed.lease.None?
    ensures Leads(s, failed.(journal := Record(gen, Disconnected), cli := Idle))
  {
    CommandLeads(s, failed, StartRestore, failed.(cli := StartRestored(gen)));
    CommandLeads(s, failed.(cli := StartRestored(gen)), StartPoll, failed.(cli := StartChecked(gen, false)));
    SavesEnd(s, failed.(cli := StartChecked(gen, false)), gen);
  }

  lemma SavesEnd(s: State, checked: State, gen: nat)
    requires Leads(s, checked) && checked.cli == StartChecked(gen, false)
    ensures Leads(s, checked.(journal := Record(gen, Disconnected), cli := Idle))
  {
    CommandLeads(s, checked, StartSave, checked.(journal := Record(gen, Disconnected), cli := Idle));
  }

  /** A host that was told to stop, and is not reading, can go of itself: its socket file is unlinked
      and its lease given back. */
  lemma CanLeave(s: State, p: nat) returns (t: State)
    requires p in s.hosts && s.hosts[p].pc.Accepting? && s.hosts[p].stopping && s.hosts[p].reading.None? && s.lease == Some(p)
    ensures Leads(s, t) && p in t.hosts && t.hosts[p].pc.Gone? && s.hosts[p].gen !in t.paths && t.lease.None?
  {
    LeadsNowhere(s);
    var draining := Move(s, p, Draining);
    LeadsOn(s, s, OfHost(p, Leave), draining);
    var closing := Move(draining, p, Closing).(paths := s.paths - {s.hosts[p].gen});
    LeadsOn(s, draining, OfHost(p, Unlink), closing);
    t := Move(closing, p, Gone).(lease := None);
    LeadsOn(s, closing, OfHost(p, Close(false)), t);
  }
}
