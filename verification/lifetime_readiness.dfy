/**
 What `Connected` in the journal rests on, and how far a late host gets: a command journals a
 generation as connected only after a host of that generation, in its accept loop and not
 stopping, answered the very request it sent; and a host whose generation may no longer start
 gets no further than its next check of the journal.
 */
module LifetimeReadiness {
  import opened Wrappers
  import opened LifetimeProtocol
  import opened LifetimeSafety
  import opened LifetimeWitnesses
  import opened LifetimePhases

  // ---------------------------------------------------------------- who owns a socket file

  /** A socket file of a generation was bound by the host of that generation. */
  ghost predicate BoundByOwn(s: State) {
    forall gen :: gen in s.paths ==> s.paths[gen] in s.hosts && s.hosts[s.paths[gen]].gen == gen
  }

  /** The status exchange of a command is with hosts of its own generation only. */
  ghost predicate TalksToOwn(s: State) {
    forall id: nat, p: nat :: TalkId(s.cli) == Some(id) && p in s.hosts && InHand(s.hosts[p], id) ==>
      s.hosts[p].gen == s.cli.gen
  }

  function TalkId(c: Cli): Option<nat> {
    match TalkOf(c)
    case Some(Opened(id)) => Some(id)
    case Some(Asked(id)) => Some(id)
    case _ => None
  }

  /** The connection of the exchange exists and carries no stop request. */
  predicate TalkLinked(s: State) {
    TalkId(s.cli).Some? ==> TalkId(s.cli).value in s.conns && s.conns[TalkId(s.cli).value] != Sent(true)
  }

  ghost predicate Linked(s: State) {
    BoundByOwn(s) && TalksToOwn(s) && TalkLinked(s)
  }

  // ---------------------------------------------------------------- answers

  /** A host of `gen` answers the status request on connection `id`: ready. */
  predicate AnswersReady(s: State, e: Event, gen: nat, id: nat) {
    && e.OfHost? && e.he == Read(true) && e.pid in s.hosts
    && var h := s.hosts[e.pid];
      && h.gen == gen && h.pc.Accepting? && !h.stopping && h.reading == Some(id)
      && id in s.conns && s.conns[id] == Sent(false)
  }

  predicate IsReady(s: State, id: nat) {
    id in s.conns && s.conns[id] == Answered(true)
  }

  lemma HostLinked(s: State, p: nat, e: HostEvent, t: State)
    requires Inv(s) && Linked(s) && HostStep(s, p, e) == Some(t)
    ensures Linked(t) && t.cli == s.cli
  {
    HostStepKeeps(s, p, e);
    HostSends(s, p, e, t);
    EffectLinked(s, t, p);
  }

  lemma EffectLinked(s: State, t: State, p: nat)
    requires Linked(s) && HostEffect(s, t, p)
    requires forall id: nat :: id in t.conns && t.conns[id] == Sent(true) ==> id in s.conns && s.conns[id] == Sent(true)
    ensures Linked(t)
  {
    assert BoundByOwn(t);
    assert TalksToOwn(t);
  }

  /** The answer to the exchange of a command comes from a host of its generation. */
  lemma OwnAnswers(s: State, p: nat, e: HostEvent, t: State, id: nat)
    requires Linked(s) && HostStep(s, p, e) == Some(t)
    requires TalkId(s.cli) == Some(id) && IsReady(t, id) && !IsReady(s, id)
    ensures AnswersReady(s, OfHost(p, e), s.cli.gen, id)
  {
    HostAnswers(s, p, e, t, id);
    assert InHand(s.hosts[p], id);
  }

  lemma HostSends(s: State, p: nat, e: HostEvent, t: State)
    requires HostStep(s, p, e) == Some(t)
    ensures forall id: nat :: id in t.conns && t.conns[id] == Sent(true) ==> id in s.conns && s.conns[id] == Sent(true)
  {
  }

  lemma HostAnswers(s: State, p: nat, e: HostEvent, t: State, id: nat)
    requires HostStep(s, p, e) == Some(t) && IsReady(t, id) && !IsReady(s, id)
    ensures p in s.hosts && AnswersReady(s, OfHost(p, e), s.hosts[p].gen, id)
  {
  }

  /** The exchange after a command's step is none, a new connection to an own host, or the old
      one, still not ready if it was not. */
  ghost predicate TalkKept(s: State, t: State) {
    && Linked(t)
    && forall id: nat :: TalkId(t.cli) == Some(id) && IsReady(t, id) ==>
         TalkId(s.cli) == Some(id) && IsReady(s, id) && s.cli.gen == t.cli.gen
  }

  lemma OpenKeepsTalk(s: State, id: nat, t: State)
    requires Inv(s) && Linked(s) && TalkStep(s, TalkOpen(id)) == Some(t)
    ensures TalkKept(s, t)
  {
    EnqueueEffect(s, s.cli.gen, id);
  }

  lemma TalkKeepsTalk(s: State, e: CliEvent, t: State)
    requires Inv(s) && Linked(s) && (e.TalkSend? || e.TalkEnd?) && TalkStep(s, e) == Some(t)
    ensures TalkKept(s, t)
  {
  }

  lemma StopOpenKeepsTalk(s: State, id: nat, t: State)
    requires Inv(s) && Linked(s) && DisconnectStep(s, StopOpen(id)) == Some(t)
    ensures TalkKept(s, t)
  {
    EnqueueEffect(s, s.cli.gen, id);
  }

  lemma DisconnectKeepsTalk(s: State, e: CliEvent, t: State)
    requires Inv(s) && Linked(s) && !e.StopOpen? && DisconnectStep.requires(s, e) && DisconnectStep(s, e) == Some(t)
    ensures TalkKept(s, t)
  {
  }

  lemma RecoverKeepsTalk(s: State, e: CliEvent, t: State)
    requires Inv(s) && Linked(s) && RecoverStep.requires(s, e) && RecoverStep(s, e) == Some(t)
    ensures TalkKept(s, t)
  {
  }

  lemma LaunchKeepsTalk(s: State, e: CliEvent, t: State)
    requires Inv(s) && Linked(s) && LaunchStep.requires(s, e) && LaunchStep(s, e) == Some(t)
    ensures TalkKept(s, t)
  {
  }

  lemma OthersKeepTalk(s: State, e: CliEvent, t: State)
    requires Inv(s) && Linked(s) && (e.Quit? || e.QueryBegin?) && CliStep(s, e) == Some(t)
    ensures TalkKept(s, t)
  {
  }

  lemma CliKeepsTalk(s: State, e: CliEvent, t: State)
    requires Inv(s) && Linked(s) && CliStep(s, e) == Some(t)
    ensures TalkKept(s, t)
  {
    if e.TalkOpen? {
      OpenKeepsTalk(s, e.id, t);
    } else if e.TalkSend? || e.TalkEnd? {
      TalkKeepsTalk(s, e, t);
    } else if e.StopOpen? {
      StopOpenKeepsTalk(s, e.id, t);
    } else if e.Quit? || e.QueryBegin? {
      OthersKeepTalk(s, e, t);
    } else if RecoverStep.requires(s, e) {
      RecoverKeepsTalk(s, e, t);
    } else if LaunchStep.requires(s, e) {
      LaunchKeepsTalk(s, e, t);
    } else {
      DisconnectKeepsTalk(s, e, t);
    }
  }

  // ---------------------------------------------------------------- connected means ready

  /** In the run so far, a host of `gen` answered the status request on connection `id`: ready. */
  ghost predicate AnsweredReady(events: seq<Event>, gen: nat, id: nat) {
    exists i :: 0 <= i < |events| && Run(INIT, events[..i]).Some?
                && AnswersReady(Run(INIT, events[..i]).value, events[i], gen, id)
  }

  lemma AnsweredLater(events: seq<Event>, gen: nat, id: nat)
    requires events != [] && AnsweredReady(Front(events), gen, id)
    ensures AnsweredReady(events, gen, id)
  {
    var f := Front(events);
    var i :| 0 <= i < |f| && Run(INIT, f[..i]).Some? && AnswersReady(Run(INIT, f[..i]).value, f[i], gen, id);
    assert events[..i] == f[..i] && events[i] == f[i];
  }

  lemma AnsweredNow(events: seq<Event>, before: State, gen: nat, id: nat)
    requires events != [] && Run(INIT, Front(events)) == Some(before) && AnswersReady(before, Last(events), gen, id)
    ensures AnsweredReady(events, gen, id)
  {
    var i := |events| - 1;
    assert events[..i] == Front(events) && events[i] == Last(events);
  }

  lemma {:induction false} ReadyWasAnswered(events: seq<Event>, s: State)
    requires Run(INIT, events) == Some(s)
    ensures Linked(s)
    ensures TalkId(s.cli).Some? && IsReady(s, TalkId(s.cli).value) ==>
      AnsweredReady(events, s.cli.gen, TalkId(s.cli).value)
    decreases |events|
  {
    if events != [] {
      var before := ByLastEvent(events, s);
      ReadyWasAnswered(Front(events), before);
      match Last(events)
      case OfHost(p, he) =>
        HostLinked(before, p, he, s);
        if TalkId(s.cli).Some? && IsReady(s, TalkId(s.cli).value) {
          var id := TalkId(s.cli).value;
          if IsReady(before, id) {
            AnsweredLater(events, s.cli.gen, id);
          } else {
            OwnAnswers(before, p, he, s, id);
            AnsweredNow(events, before, s.cli.gen, id);
          }
        }
      case OfCli(ce) =>
        CliKeepsTalk(before, ce, s);
        if TalkId(s.cli).Some? && IsReady(s, TalkId(s.cli).value) {
          AnsweredLater(events, s.cli.gen, TalkId(s.cli).value);
        }
    }
  }

  lemma ConnectingIsReady(s: State, e: CliEvent, t: State)
    requires (e.ConnectReady? || e.ConnectPromote?) && Inv(s) && CliStep(s, e) == Some(t)
    ensures s.journal.Record? && t.journal == Record(s.journal.gen, Connected) && s.cli.gen == s.journal.gen
    ensures TalkOf(s.cli).Some? && TalkOf(s.cli).value.Asked? && IsReady(s, TalkOf(s.cli).value.id)
  {
  }

  /** A generation is journalled as connected only after one of its hosts, in its accept loop and
      not stopping, answered "ready" on the connection of that command. */
  lemma ConnectedMeansReady(events: seq<Event>, s: State, e: Event)
    requires Run(INIT, events) == Some(s) && Step(s, e).Some?
    requires Step(s, e).value.journal != s.journal
    requires Step(s, e).value.journal.Record? && Step(s, e).value.journal.phase.Connected?
    ensures TalkId(s.cli).Some?
    ensures AnsweredReady(events, Step(s, e).value.journal.gen, TalkId(s.cli).value)
  {
    RunKeeps(INIT, events);
    StepFollows(s, e, Step(s, e).value);
    ConnectingIsReady(s, e.ce, Step(s, e).value);
    ReadyWasAnswered(events, s);
  }

  // ---------------------------------------------------------------- why a host stops

  /** The event tells host `p` to stop: a signal, or the reading of a stop request. */
  predicate Tells(s: State, e: Event, p: nat) {
    && e.OfHost? && e.pid == p
    && (e.he == Signal
        || (e.he.Read? && p in s.hosts && s.hosts[p].reading.Some? && IsStop(s, s.hosts[p].reading.value)))
  }

  /** Some event of the run told host `p` to stop. */
  ghost predicate Told(events: seq<Event>, p: nat)
    decreases |events|
  {
    events != []
    && (Told(Front(events), p) || (Run(INIT, Front(events)).Some? && Tells(Run(INIT, Front(events)).value, Last(events), p)))
  }

  lemma HostIsTold(s: State, q: nat, e: HostEvent, t: State, p: nat)
    requires HostStep(s, q, e) == Some(t)
    ensures p in t.hosts <==> p in s.hosts
    ensures p in s.hosts ==> (t.hosts[p].stopping <==> s.hosts[p].stopping || Tells(s, OfHost(q, e), p))
    ensures p !in s.hosts ==> !Tells(s, OfHost(q, e), p)
  {
  }

  lemma SpawnedIsFree(s: State, e: CliEvent, t: State, p: nat)
    requires CliStep(s, e) == Some(t) && p in t.hosts && p !in s.hosts
    ensures !t.hosts[p].stopping
  {
    if !e.ConnectSpawn? {
      if OpensOrSpawns(e) { EnqueueEffect(s, s.cli.gen, e.id); } else { CliLeavesHosts(s, e); }
    }
  }

  /** A host is stopping if and only if it was told to. */
  lemma {:induction false} StoppingExactly(events: seq<Event>, s: State, p: nat)
    requires Run(INIT, events) == Some(s)
    ensures p in s.hosts ==> (s.hosts[p].stopping <==> Told(events, p))
    ensures p !in s.hosts ==> !Told(events, p)
    decreases |events|
  {
    if events != [] {
      var before := ByLastEvent(events, s);
      StoppingExactly(Front(events), before, p);
      match Last(events)
      case OfHost(q, he) => HostIsTold(before, q, he, s, p);
      case OfCli(ce) =>
        CliKeepsStops(before, ce);
        if p in s.hosts && p !in before.hosts { SpawnedIsFree(before, ce, s, p); }
    }
  }

  /** A host leaves its accept loop in good order only after it was told to stop, and accepts no
      connection from then on. */
  lemma LeavesWhenTold(events: seq<Event>, s: State, p: nat)
    requires Run(INIT, events) == Some(s)
    ensures HostStep(s, p, Leave).Some? ==> Told(events, p)
    ensures HostStep(s, p, Accept).Some? ==> !Told(events, p)
  {
    StoppingExactly(events, s, p);
  }

  // ---------------------------------------------------------------- socket files

  /** The host may still have its socket file: it has bound it and not yet unlinked it, or it died. */
  predicate MayOwnSocket(h: Host) {
    OwnsPath(h) || h.pc.Draining? || h.pc.Gone?
  }

  ghost predicate SocketsOwned(s: State) {
    forall gen :: gen in s.paths ==>
      s.paths[gen] in s.hosts && s.hosts[s.paths[gen]].gen == gen && MayOwnSocket(s.hosts[s.paths[gen]])
  }

  /** All an event of a host does to the socket files: it binds its own, or unlinks it. */
  predicate OwnSocketOnly(s: State, t: State, p: nat, h: Host, k: Host) {
    && k.gen == h.gen
    && ((t.paths == s.paths[h.gen := p] && MayOwnSocket(k))
        || (t.paths == s.paths && (MayOwnSocket(h) ==> MayOwnSocket(k)))
        || t.paths == s.paths - {h.gen})
  }

  lemma HostSocket(s: State, p: nat, e: HostEvent, t: State)
    requires HostStep(s, p, e) == Some(t)
    ensures p in s.hosts && p in t.hosts && t.hosts == s.hosts[p := t.hosts[p]]
    ensures OwnSocketOnly(s, t, p, s.hosts[p], t.hosts[p])
  {
    HostStepLocal(s, p, e);
  }

  lemma SocketsStayOwned(s: State, t: State, p: nat)
    requires SocketsOwned(s) && p in s.hosts && p in t.hosts && t.hosts == s.hosts[p := t.hosts[p]]
    requires OwnSocketOnly(s, t, p, s.hosts[p], t.hosts[p])
    ensures SocketsOwned(t)
  {
  }

  lemma CommandKeepsSockets(s: State, e: CliEvent, t: State)
    requires Inv(s) && SocketsOwned(s) && CliStep(s, e) == Some(t)
    ensures SocketsOwned(t)
  {
    CliFollows(s, e, t);
    CliKeepsStops(s, e);
  }

  lemma {:induction false} SocketsHaveOwners(events: seq<Event>, s: State)
    requires Run(INIT, events) == Some(s)
    ensures SocketsOwned(s)
    decreases |events|
  {
    if events != [] {
      var before := ByLastEvent(events, s);
      SocketsHaveOwners(Front(events), before);
      match Last(events)
      case OfHost(p, he) =>
        HostSocket(before, p, he, s);
        SocketsStayOwned(before, s, p);
      case OfCli(ce) => CommandKeepsSockets(before, ce, s);
    }
  }

  /** A host that closes of itself has unlinked its socket file before it gives up the lease. */
  lemma ClosesClean(s: State, p: nat)
    requires s in ReachedFrom(INIT) && p in s.hosts && s.hosts[p].pc.Closing?
    ensures forall gen :: gen in s.paths ==> s.paths[gen] != p
  {
    var events :| Run(INIT, events) == Some(s);
    SocketsHaveOwners(events, s);
  }

  // ---------------------------------------------------------------- checks of the journal

  /** Where a check of the journal takes a host that passes it. */
  function Onward(e: HostEvent): Option<Pc> {
    match e
    case Start => Some(Admitted)
    case Recheck => Some(Checked)
    case Prebind => Some(Rechecked)
    case FinalCheck => Some(Accepting)
    case _ => None
  }

  /** A host passes each of its four checks if and only if the journal names its generation as prepared
      or connected. */
  lemma ChecksExactly(s: State, p: nat, e: HostEvent)
    requires Onward(e).Some? && p in s.hosts && HostStep(s, p, e).Some?
    ensures HostStep(s, p, e).value.hosts[p].pc == Onward(e).value <==>
      s.journal == Record(s.hosts[p].gen, Prepared) || s.journal == Record(s.hosts[p].gen, Connected)
  {
  }

  // ---------------------------------------------------------------- late hosts

  /** How far a host may get that finds itself at `from` when its generation may no longer start:
      not to the lease, not to a socket, not to its accept loop, whichever check comes next. */
  predicate GetsTo(from: Pc, pc: Pc) {
    match from
    case Spawned => pc.Spawned? || pc.Gone?
    case Admitted => pc.Admitted? || pc.Leased? || pc.Closing? || pc.Gone?
    case Leased => pc.Leased? || pc.Closing? || pc.Gone?
    case Checked => pc.Checked? || pc.Closing? || pc.Gone?
    case Accepting => true
    case _ => !pc.Accepting?
  }

  lemma HostStaysLate(s: State, q: nat, e: HostEvent, p: nat, from: Pc)
    requires p in s.hosts && GetsTo(from, s.hosts[p].pc) && HostStep(s, q, e).Some?
    requires !Startable(s.journal, s.hosts[p].gen)
    ensures var t := HostStep(s, q, e).value;
      p in t.hosts && t.hosts[p].gen == s.hosts[p].gen && GetsTo(from, t.hosts[p].pc) && t.journal == s.journal
  {
    HostStepLocal(s, q, e);
  }

  lemma CommandStaysLate(s: State, e: CliEvent, p: nat)
    requires Inv(s) && p in s.hosts && CliStep(s, e).Some? && !Startable(s.journal, s.hosts[p].gen)
    ensures var t := CliStep(s, e).value;
      p in t.hosts && t.hosts[p].gen == s.hosts[p].gen && t.hosts[p].pc == s.hosts[p].pc && !Startable(t.journal, t.hosts[p].gen)
  {
    CliKeepsStops(s, e);
    CliKeepsUnstartable(s, e, s.hosts[p].gen);
  }

  lemma {:induction false} StaysLate(s: State, events: seq<Event>, t: State, p: nat, from: Pc)
    requires Inv(s) && Run(s, events) == Some(t) && p in s.hosts && !Startable(s.journal, s.hosts[p].gen)
    requires GetsTo(from, s.hosts[p].pc)
    ensures p in t.hosts && GetsTo(from, t.hosts[p].pc)
    decreases |events|
  {
    if events != [] {
      StepKeeps(s, events[0]);
      match events[0] {
        case OfHost(q, he) => HostStaysLate(s, q, he, p, from);
        case OfCli(ce) => CommandStaysLate(s, ce, p);
      }
      StaysLate(Step(s, events[0]).value, events[1..], t, p, from);
    }
  }

  /** Once its generation may no longer start, a host gets no further than its next check: one
      not yet started never takes the lease, one with the lease but no socket never binds one,
      and one not yet accepting never accepts. */
  lemma LateHost(s: State, events: seq<Event>, t: State, p: nat)
    requires s in ReachedFrom(INIT) && Run(s, events) == Some(t) && p in s.hosts && !Startable(s.journal, s.hosts[p].gen)
    ensures p in t.hosts && GetsTo(s.hosts[p].pc, t.hosts[p].pc)
  {
    ReachedInv(s);
    StaysLate(s, events, t, p, s.hosts[p].pc);
  }
}
