/**
 Safety of the connected-client lifetime over every interleaving: the runtime lease and the
 journal agree, a stop that reached or was refused by the socket is never lost, and a
 finished disconnect is final.
 */
module LifetimeSafety {
  import opened Wrappers
  import opened LifetimeProtocol

  // ---------------------------------------------------------------- the inductive invariant

  ghost predicate LeaseInv(s: State) {
    forall p :: p in s.hosts && HoldsLease(s.hosts[p]) ==> s.lease == Some(p)
  }

  ghost predicate AgreeInv(s: State) {
    forall p :: p in s.hosts && PastRecheck(s.hosts[p]) ==>
      s.journal.Record? && s.journal.gen == s.hosts[p].gen
  }

  ghost predicate OneHostPerGeneration(s: State) {
    forall p, q :: p in s.hosts && q in s.hosts && s.hosts[p].gen == s.hosts[q].gen ==> p == q
  }

  ghost predicate UsedInv(s: State) {
    && (s.journal.Record? ==> s.journal.gen in s.used)
    && (forall p :: p in s.hosts ==> s.hosts[p].gen in s.used)
  }

  ghost predicate PathInv(s: State) {
    forall p :: p in s.hosts && OwnsPath(s.hosts[p]) ==>
      s.hosts[p].gen in s.paths && s.paths[s.hosts[p].gen] == p
  }

  predicate OwnsPath(h: Host) {
    h.pc.Bound? || h.pc.Listening? || h.pc.Serving? || h.pc.Accepting?
  }

  ghost predicate Quiet(s: State) {
    forall p :: p in s.hosts ==> !PastRecheck(s.hosts[p])
  }

  ghost predicate NoHost(s: State, gen: nat) {
    forall p :: p in s.hosts ==> s.hosts[p].gen != gen
  }

  ghost predicate HostsGone(s: State, gen: nat) {
    forall p :: p in s.hosts && s.hosts[p].gen == gen ==> s.hosts[p].pc.Gone?
  }

  /** An opened stop connection that still waits for its request is in the hands of the
      accepting host of its generation, if there is one. */
  ghost predicate StopInHand(s: State, gen: nat, id: nat) {
    IsWaiting(s, id) ==>
      forall p :: p in s.hosts && s.hosts[p].gen == gen && s.hosts[p].pc.Accepting? ==>
        InHand(s.hosts[p], id)
  }

  predicate Stopped(j: Journal) {
    j.Absent? || j.phase.Disconnected?
  }

  /** What the process inside the transaction lock knows about the disk. */
  ghost predicate CliInv(s: State) {
    match s.cli
    case Idle => true
    case Query(_, _) => true
    case DisconnectLoaded(g) => s.journal.Record? && s.journal.gen == g && !s.journal.phase.Disconnected?
    case DisconnectSaved(g) => s.journal == Record(g, Disconnecting)
    case DisconnectRestored(g, _) => s.journal == Record(g, Disconnecting)
    case StopOpened(g, _, id) => s.journal == Record(g, Disconnecting) && StopInHand(s, g, id)
    case StopTried(g, _, _) => s.journal == Record(g, Disconnecting)
    case DisconnectQuiet(g, _) => s.journal == Record(g, Disconnecting) && Quiet(s)
    case DisconnectUnlinked(g, _) => s.journal == Record(g, Disconnecting) && Quiet(s)
    case ConnectLoaded(g, phase, _) => s.journal == Record(g, phase) && (phase.Prepared? || phase.Disconnecting?)
    case RecoverQuiet(g, phase) => Recovering(s, g, phase)
    case RecoverRestored(g, phase) => Recovering(s, g, phase)
    case ConnectIdle => Stopped(s.journal)
    case ConnectFree => Stopped(s.journal) && Quiet(s)
    case ConnectPrepared(g) => s.journal == Record(g, Prepared) && NoHost(s, g)
    case ConnectConfigured(g) => s.journal == Record(g, Prepared) && NoHost(s, g)
    case ConnectWaiting(g, p, _) => s.journal == Record(g, Prepared) && p in s.hosts && s.hosts[p].gen == g
    case StartFailed(g) => s.journal == Record(g, Prepared) && HostsGone(s, g)
    case StartRestored(g) => s.journal == Record(g, Prepared) && HostsGone(s, g)
    case StartChecked(g, _) => s.journal == Record(g, Prepared) && HostsGone(s, g)
  }

  ghost predicate Recovering(s: State, gen: nat, phase: Phase) {
    && s.journal == Record(gen, phase)
    && (phase.Prepared? || phase.Disconnecting?)
    && (phase.Disconnecting? ==> Quiet(s))
  }

  predicate InHand(h: Host, id: nat) {
    id in h.queue || h.reading == Some(id)
  }

  /** A connection sits at one host only, and exists. */
  ghost predicate ConnInv(s: State) {
    && (forall p: nat, id: nat :: p in s.hosts && InHand(s.hosts[p], id) ==> id in s.conns)
    && (forall p: nat, q: nat, id: nat :: p in s.hosts && q in s.hosts && InHand(s.hosts[p], id) && InHand(s.hosts[q], id) ==> p == q)
  }

  ghost predicate Inv(s: State) {
    && LeaseInv(s) && AgreeInv(s) && OneHostPerGeneration(s) && UsedInv(s)
    && PathInv(s) && ConnInv(s) && CliInv(s)
  }

  // ---------------------------------------------------------------- every step keeps it

  /** All that an event of host `p` can do to the shared state. */
  ghost predicate HostEffect(s: State, t: State, p: nat) {
    && p in s.hosts && p in t.hosts
    && t.journal == s.journal && t.used == s.used && t.cli == s.cli
    && t.hosts == s.hosts[p := t.hosts[p]]
    && LocalEffect(s, t, p, s.hosts[p], t.hosts[p])
    && ConnEffect(s, t, s.hosts[p], t.hosts[p])
  }

  predicate LocalEffect(s: State, t: State, p: nat, h: Host, k: Host) {
    && k.gen == h.gen && (h.pc.Gone? ==> k.pc.Gone?)
    && (t.lease == s.lease || (s.lease.None? && t.lease == Some(p)) || (s.lease == Some(p) && !HoldsLease(k)))
    && (HoldsLease(k) ==> HoldsLease(h) || t.lease == Some(p))
    && (PastRecheck(k) ==> PastRecheck(h) || (h.pc.Leased? && Startable(s.journal, h.gen)))
    && (OwnsPath(k) ==> if OwnsPath(h) then t.paths == s.paths else t.paths == s.paths[h.gen := p])
    && (t.paths == s.paths || t.paths == s.paths[h.gen := p] || t.paths == s.paths - {h.gen})
    && (k.pc.Accepting? ==> h.pc.Accepting? || Startable(s.journal, h.gen))
  }

  ghost predicate ConnEffect(s: State, t: State, h: Host, k: Host) {
    && t.conns.Keys == s.conns.Keys
    && (forall id: nat :: id in s.conns && h.reading != Some(id) ==> t.conns[id] == s.conns[id])
    && (forall id: nat :: IsWaiting(t, id) ==> IsWaiting(s, id))
    && (forall id: nat :: InHand(k, id) ==> InHand(h, id))
    && (forall id: nat :: InHand(h, id) && IsWaiting(t, id) ==> InHand(k, id))
    && (k.pc.Accepting? && StopPending(s, h) ==> StopPending(t, k))
  }

  predicate IsStop(s: State, id: nat) {
    id in s.conns && s.conns[id] == Sent(true)
  }

  /** The host will leave its accept loop: its stop flag is set, or a stop request is being
      read or waits in its socket queue. */
  ghost predicate StopPending(s: State, h: Host) {
    h.stopping || exists id: nat :: InHand(h, id) && IsStop(s, id)
  }

  lemma QueueHead(h: Host)
    requires h.queue != [] && h.reading.None?
    ensures forall id: nat :: InHand(h, id) <==> InHand(h.(reading := Some(h.queue[0]), queue := h.queue[1..]), id)
  {
    assert h.queue == [h.queue[0]] + h.queue[1..];
  }

  lemma HostStepLocal(s: State, p: nat, e: HostEvent)
    requires HostStep(s, p, e).Some?
    ensures var t := HostStep(s, p, e).value;
      && p in s.hosts && p in t.hosts
      && t.journal == s.journal && t.used == s.used && t.cli == s.cli
      && t.hosts == s.hosts[p := t.hosts[p]]
      && LocalEffect(s, t, p, s.hosts[p], t.hosts[p])
  {
  }

  lemma HostStepConns(s: State, p: nat, e: HostEvent)
    requires HostStep(s, p, e).Some? && p in HostStep(s, p, e).value.hosts
    ensures var t := HostStep(s, p, e).value; var h := s.hosts[p]; var k := t.hosts[p];
      && t.conns.Keys == s.conns.Keys
      && (forall id: nat :: id in s.conns && h.reading != Some(id) ==> t.conns[id] == s.conns[id])
      && (forall id: nat :: IsWaiting(t, id) ==> IsWaiting(s, id))
      && (h.stopping ==> k.stopping)
      && (h.reading.Some? && k.reading != h.reading && IsStop(s, h.reading.value) ==> k.stopping)
      && (k.reading == h.reading ==> t.conns == s.conns)
  {
  }

  lemma HostStepHands(s: State, p: nat, e: HostEvent)
    requires HostStep(s, p, e).Some? && p in HostStep(s, p, e).value.hosts
    ensures var t := HostStep(s, p, e).value; var h := s.hosts[p]; var k := t.hosts[p];
      && (forall id: nat :: InHand(k, id) ==> InHand(h, id))
      && (forall id: nat :: InHand(h, id) && !InHand(k, id) ==> h.reading == Some(id) && k.reading.None?)
      && (k.reading.None? && h.reading.Some? ==> !IsWaiting(t, h.reading.value))
  {
    if e.Accept? {
      QueueHead(s.hosts[p]);
    }
  }

  lemma HostStepKeeps(s: State, p: nat, e: HostEvent)
    requires Inv(s) && HostStep(s, p, e).Some?
    ensures Inv(HostStep(s, p, e).value)
    ensures HostEffect(s, HostStep(s, p, e).value, p)
  {
    HostStepLocal(s, p, e);
    HostStepConns(s, p, e);
    HostStepHands(s, p, e);
    var t := HostStep(s, p, e).value;
    var h, k := s.hosts[p], t.hosts[p];
    if StopPending(s, h) && !k.stopping {
      var id: nat :| InHand(h, id) && IsStop(s, id);
      assert InHand(k, id) && IsStop(t, id);
    }
    HostEffectKeeps(s, t, p);
  }

  lemma HostEffectKeeps(s: State, t: State, p: nat)
    requires Inv(s) && HostEffect(s, t, p)
    ensures Inv(t)
  {
    assert LeaseInv(t) && AgreeInv(t) && OneHostPerGeneration(t) && UsedInv(t);
    assert PathInv(t);
    assert ConnInv(t);
    assert Quiet(s) && !Startable(s.journal, s.hosts[p].gen) ==> Quiet(t);
  }

  /** Opening a connection appends it to one host's queue and changes nothing else. */
  lemma EnqueueEffect(s: State, gen: nat, id: nat)
    requires Enqueue(s, gen, id).Some?
    ensures var t := Enqueue(s, gen, id).value;
      && Target(s, gen).Some?
      && var p := Target(s, gen).value;
      && p in s.hosts && id !in s.conns
      && t == s.(hosts := t.hosts, conns := s.conns[id := Waiting])
      && t.hosts == s.hosts[p := s.hosts[p].(queue := s.hosts[p].queue + [id])]
      && (forall x: nat :: InHand(t.hosts[p], x) <==> InHand(s.hosts[p], x) || x == id)
  {
  }

  lemma EnqueueKeeps(s: State, gen: nat, id: nat, cli: Cli)
    requires Inv(s) && Enqueue(s, gen, id).Some?
    requires TalkOf(s.cli).Some? && cli == WithTalk(s.cli, Opened(id))
    ensures Inv(Enqueue(s, gen, id).value.(cli := cli))
  {
    EnqueueEffect(s, gen, id);
  }

  lemma StopOpenKeeps(s: State, id: nat)
    requires Inv(s) && s.cli.DisconnectRestored? && Enqueue(s, s.cli.gen, id).Some?
    ensures Inv(Enqueue(s, s.cli.gen, id).value.(cli := StopOpened(s.cli.gen, s.cli.failed, id)))
  {
    EnqueueEffect(s, s.cli.gen, id);
  }

  lemma TalkStepKeeps(s: State, e: CliEvent)
    requires e.TalkOpen? || e.TalkSend? || e.TalkEnd?
    requires Inv(s) && TalkStep(s, e).Some?
    ensures Inv(TalkStep(s, e).value)
  {
    if e.TalkOpen? {
      EnqueueKeeps(s, s.cli.gen, e.id, WithTalk(s.cli, Opened(e.id)));
    }
  }

  lemma DisconnectStepKeeps(s: State, e: CliEvent)
    requires DisconnectStep.requires(s, e)
    requires Inv(s) && DisconnectStep(s, e).Some?
    ensures Inv(DisconnectStep(s, e).value)
  {
    if e.StopOpen? {
      StopOpenKeeps(s, e.id);
    } else if e.StopSend? || e.DisconnectUnlink? {
      StopSendKeeps(s, e);
    } else {
      JournalFrame(s, DisconnectStep(s, e).value);
    }
  }

  lemma StopSendKeeps(s: State, e: CliEvent)
    requires (e.StopSend? || e.DisconnectUnlink?) && Inv(s) && DisconnectStep(s, e).Some?
    ensures Inv(DisconnectStep(s, e).value)
  {
  }

  /** With the hosts, the lease and the sockets untouched, only the journal and the command's
      own knowledge are left to check. */
  lemma JournalFrame(s: State, t: State)
    requires Inv(s)
    requires t == s.(journal := t.journal, used := t.used, cli := t.cli)
    requires s.used <= t.used
    requires t.journal.Record? ==> t.journal.gen in t.used
    requires t.journal == s.journal || Quiet(s) || (s.journal.Record? && t.journal.Record? && t.journal.gen == s.journal.gen)
    requires CliInv(t)
    ensures Inv(t)
  {
  }

  lemma FreeLeaseIsQuiet(s: State)
    requires Inv(s) && s.lease.None?
    ensures Quiet(s)
  {
  }

  lemma RecoverStepKeeps(s: State, e: CliEvent)
    requires RecoverStep.requires(s, e)
    requires Inv(s) && RecoverStep(s, e).Some?
    ensures Inv(RecoverStep(s, e).value)
  {
    if s.lease.None? {
      FreeLeaseIsQuiet(s);
    }
    JournalFrame(s, RecoverStep(s, e).value);
  }

  lemma SpawnKeeps(s: State, p: nat)
    requires Inv(s) && LaunchStep(s, ConnectSpawn(p)).Some?
    ensures Inv(LaunchStep(s, ConnectSpawn(p)).value)
  {
  }

  lemma LaunchStepKeeps(s: State, e: CliEvent)
    requires LaunchStep.requires(s, e)
    requires Inv(s) && LaunchStep(s, e).Some?
    ensures Inv(LaunchStep(s, e).value)
  {
    if e.ConnectSpawn? {
      SpawnKeeps(s, e.pid);
    } else {
      JournalFrame(s, LaunchStep(s, e).value);
    }
  }

  lemma StepKeeps(s: State, e: Event)
    requires Inv(s) && Step(s, e).Some?
    ensures Inv(Step(s, e).value)
  {
    match e
    case OfHost(p, he) => HostStepKeeps(s, p, he);
    case OfCli(ce) =>
      if ce.TalkOpen? || ce.TalkSend? || ce.TalkEnd? {
        TalkStepKeeps(s, ce);
      } else if RecoverStep.requires(s, ce) {
        RecoverStepKeeps(s, ce);
      } else if LaunchStep.requires(s, ce) {
        LaunchStepKeeps(s, ce);
      } else if ce.QueryBegin? || ce.Quit? {
      } else {
        DisconnectStepKeeps(s, ce);
      }
  }

  lemma {:induction false} RunKeeps(s: State, events: seq<Event>)
    requires Inv(s) && Run(s, events).Some?
    ensures Inv(Run(s, events).value)
    decreases |events|
  {
    if events != [] {
      StepKeeps(s, events[0]);
      RunKeeps(Step(s, events[0]).value, events[1..]);
    }
  }

  lemma ReachedInv(s: State)
    requires s in ReachedFrom(INIT)
    ensures Inv(s)
  {
    var events :| Run(INIT, events) == Some(s);
    RunKeeps(INIT, events);
  }

  // ---------------------------------------------------------------- generation agreement

  /** In every reachable state, a host past its post-lock journal check holds the one runtime
      lease, its generation is the journalled one, and no second host is past that check. */
  lemma GenerationAgreement(s: State, p: nat)
    requires s in ReachedFrom(INIT) && p in s.hosts && PastRecheck(s.hosts[p])
    ensures s.lease == Some(p)
    ensures s.journal.Record? && s.journal.gen == s.hosts[p].gen
    ensures forall q :: q in s.hosts && PastRecheck(s.hosts[q]) ==> q == p
  {
    ReachedInv(s);
  }

  // ---------------------------------------------------------------- no lost stop

  /** Hosts of `gen` can only leave: none may pass a journal check again, and one that sits in
      its accept loop has a stop pending. */
  ghost predicate Leaving(s: State, gen: nat) {
    && Inv(s) && gen in s.used && !Startable(s.journal, gen)
    && forall p :: p in s.hosts && s.hosts[p].gen == gen && s.hosts[p].pc.Accepting? ==> StopPending(s, s.hosts[p])
  }

  lemma HostKeepsLeaving(s: State, p: nat, e: HostEvent, gen: nat)
    requires Leaving(s, gen) && HostStep(s, p, e).Some?
    ensures Leaving(HostStep(s, p, e).value, gen)
  {
    HostStepKeeps(s, p, e);
    var t := HostStep(s, p, e).value;
    forall q | q in t.hosts && t.hosts[q].gen == gen && t.hosts[q].pc.Accepting?
      ensures StopPending(t, t.hosts[q])
    {
      if q != p && !t.hosts[q].stopping {
        var id: nat :| InHand(s.hosts[q], id) && IsStop(s, id);
        assert InHand(t.hosts[q], id) && IsStop(t, id);
      }
    }
  }

  /** What a command-line step leaves alone: where hosts are, requests already sent, and every
      connection in hand. */
  ghost predicate StopsKept(s: State, t: State) {
    && (forall p :: p in s.hosts ==>
          && p in t.hosts && t.hosts[p].gen == s.hosts[p].gen && t.hosts[p].pc == s.hosts[p].pc
          && t.hosts[p].stopping == s.hosts[p].stopping
          && forall id: nat :: InHand(s.hosts[p], id) ==> InHand(t.hosts[p], id))
    && (forall p :: p in t.hosts && p !in s.hosts ==> t.hosts[p].pc.Spawned?)
    && (forall id: nat :: IsStop(s, id) ==> IsStop(t, id))
  }

  predicate OpensOrSpawns(e: CliEvent) {
    e.TalkOpen? || e.StopOpen? || e.ConnectSpawn?
  }

  /** No host changes, and no connection that was already past waiting. */
  ghost predicate HostsLeft(s: State, t: State) {
    && t.hosts == s.hosts
    && forall id: nat :: id in s.conns && !s.conns[id].Waiting? ==> id in t.conns && t.conns[id] == s.conns[id]
  }

  lemma DisconnectLeavesHosts(s: State, e: CliEvent)
    requires DisconnectStep.requires(s, e) && DisconnectStep(s, e).Some? && !e.StopOpen?
    ensures HostsLeft(s, DisconnectStep(s, e).value)
  {
  }

  lemma RecoverLeavesHosts(s: State, e: CliEvent)
    requires RecoverStep.requires(s, e) && RecoverStep(s, e).Some?
    ensures HostsLeft(s, RecoverStep(s, e).value)
  {
  }

  lemma LaunchLeavesHosts(s: State, e: CliEvent)
    requires LaunchStep.requires(s, e) && LaunchStep(s, e).Some? && !e.ConnectSpawn?
    ensures HostsLeft(s, LaunchStep(s, e).value)
  {
  }

  lemma OthersLeaveHosts(s: State, e: CliEvent)
    requires e.TalkSend? || e.TalkEnd? || e.QueryBegin? || e.Quit?
    requires CliStep(s, e).Some?
    ensures HostsLeft(s, CliStep(s, e).value)
  {
  }

  lemma OpeningKeepsStops(s: State, e: CliEvent)
    requires OpensOrSpawns(e) && CliStep(s, e).Some?
    ensures StopsKept(s, CliStep(s, e).value)
  {
    if !e.ConnectSpawn? {
      EnqueueEffect(s, s.cli.gen, e.id);
    }
  }

  lemma CliLeavesHosts(s: State, e: CliEvent)
    requires !OpensOrSpawns(e) && CliStep(s, e).Some?
    ensures HostsLeft(s, CliStep(s, e).value)
  {
    if e.TalkSend? || e.TalkEnd? || e.QueryBegin? || e.Quit? {
      OthersLeaveHosts(s, e);
    } else if RecoverStep.requires(s, e) {
      RecoverLeavesHosts(s, e);
    } else if LaunchStep.requires(s, e) {
      LaunchLeavesHosts(s, e);
    } else {
      DisconnectLeavesHosts(s, e);
    }
  }

  lemma LeftHostsKeepStops(s: State, t: State)
    requires HostsLeft(s, t)
    ensures StopsKept(s, t)
  {
  }

  lemma CliKeepsStops(s: State, e: CliEvent)
    requires CliStep(s, e).Some?
    ensures StopsKept(s, CliStep(s, e).value)
  {
    if OpensOrSpawns(e) {
      OpeningKeepsStops(s, e);
    } else {
      CliLeavesHosts(s, e);
      LeftHostsKeepStops(s, CliStep(s, e).value);
    }
  }

  lemma CliKeepsUnstartable(s: State, e: CliEvent, gen: nat)
    requires Inv(s) && CliStep(s, e).Some?
    requires gen in s.used && !Startable(s.journal, gen)
    ensures gen in CliStep(s, e).value.used && !Startable(CliStep(s, e).value.journal, gen)
  {
  }

  lemma StepKeepsLeaving(s: State, e: Event, gen: nat)
    requires Leaving(s, gen) && Step(s, e).Some?
    ensures Leaving(Step(s, e).value, gen)
  {
    match e
    case OfHost(p, he) => HostKeepsLeaving(s, p, he, gen);
    case OfCli(ce) =>
      StepKeeps(s, e);
      CliKeepsUnstartable(s, ce, gen);
      CliKeepsStops(s, ce);
      var t := CliStep(s, ce).value;
      forall q | q in t.hosts && t.hosts[q].gen == gen && t.hosts[q].pc.Accepting?
        ensures StopPending(t, t.hosts[q])
      {
        if !t.hosts[q].stopping {
          var id: nat :| InHand(s.hosts[q], id) && IsStop(s, id);
          assert InHand(t.hosts[q], id) && IsStop(t, id);
        }
      }
  }

  lemma {:induction false} RunKeepsLeaving(s: State, events: seq<Event>, gen: nat)
    requires Leaving(s, gen) && Run(s, events).Some?
    ensures Leaving(Run(s, events).value, gen)
    decreases |events|
  {
    if events != [] {
      StepKeepsLeaving(s, events[0], gen);
      RunKeepsLeaving(Step(s, events[0]).value, events[1..], gen);
    }
  }

  /** The moment a disconnect has put its stop request into the socket, or was refused by it. */
  predicate StopSettles(s: State, e: Event) {
    && Step(s, e).Some? && !s.cli.StopTried?
    && Step(s, e).value.cli.StopTried? && Step(s, e).value.cli.settled
  }

  lemma SettlingEvents(s: State, e: Event)
    requires StopSettles(s, e)
    ensures e.OfCli?
    ensures || (e.ce.StopSend? && s.cli.StopOpened? && IsWaiting(s, s.cli.id))
            || (e.ce.StopRefused? && s.cli.DisconnectRestored? && Target(s, s.cli.gen).None?)
  {
    if e.OfHost? {
      HostStepLocal(s, e.pid, e.he);
      assert false;
    }
  }

  lemma SentStopLeaving(s: State)
    requires Inv(s) && s.cli.StopOpened? && IsWaiting(s, s.cli.id)
    requires Inv(DisconnectStep(s, StopSend).value)
    ensures Leaving(DisconnectStep(s, StopSend).value, s.cli.gen)
  {
    var t := DisconnectStep(s, StopSend).value;
    forall p | p in t.hosts && t.hosts[p].gen == s.cli.gen && t.hosts[p].pc.Accepting?
      ensures StopPending(t, t.hosts[p])
    {
      assert InHand(t.hosts[p], s.cli.id) && IsStop(t, s.cli.id);
    }
  }

  lemma RefusedStopLeaving(s: State)
    requires Inv(s) && s.cli.DisconnectRestored? && Target(s, s.cli.gen).None?
    requires Inv(DisconnectStep(s, StopRefused).value)
    ensures Leaving(DisconnectStep(s, StopRefused).value, s.cli.gen)
  {
    forall p | p in s.hosts && s.hosts[p].gen == s.cli.gen ensures !s.hosts[p].pc.Accepting? {
      assert OwnsPath(s.hosts[p]) ==> s.paths[s.cli.gen] == p;
    }
  }

  lemma StopSettlesLeaving(s: State, e: Event)
    requires Inv(s) && StopSettles(s, e)
    ensures Leaving(Step(s, e).value, Step(s, e).value.cli.gen)
  {
    StepKeeps(s, e);
    SettlingEvents(s, e);
    if e.ce.StopSend? {
      SentStopLeaving(s);
    } else {
      RefusedStopLeaving(s);
    }
  }

  /** No lost stop: whatever happens after a disconnect journalled its intent and its stop
      request was delivered or refused, a host of that generation that sits in its accept
      loop always has a stop pending, even if the disconnect itself died. */
  lemma NoLostStop(s: State, e: Event, t: State, p: nat)
    requires s in ReachedFrom(INIT) && StopSettles(s, e)
    requires t in ReachedFrom(Step(s, e).value)
    requires p in t.hosts && t.hosts[p].gen == Step(s, e).value.cli.gen && t.hosts[p].pc.Accepting?
    ensures StopPending(t, t.hosts[p])
  {
    ReachedInv(s);
    StopSettlesLeaving(s, e);
    var m := Step(s, e).value;
    var events :| Run(m, events) == Some(t);
    RunKeepsLeaving(m, events, m.cli.gen);
  }

  // ---------------------------------------------------------------- final disconnect

  /** No host of `gen` is past its journal check, and none ever will be. */
  ghost predicate Ended(s: State, gen: nat) {
    && Inv(s) && gen in s.used && !Startable(s.journal, gen)
    && forall p :: p in s.hosts && s.hosts[p].gen == gen ==> !PastRecheck(s.hosts[p])
  }

  lemma StepKeepsEnded(s: State, e: Event, gen: nat)
    requires Ended(s, gen) && Step(s, e).Some?
    ensures Ended(Step(s, e).value, gen)
  {
    StepKeeps(s, e);
    match e
    case OfHost(p, he) => HostStepLocal(s, p, he);
    case OfCli(ce) =>
      CliKeepsUnstartable(s, ce, gen);
      CliKeepsStops(s, ce);
  }

  lemma {:induction false} RunKeepsEnded(s: State, events: seq<Event>, gen: nat)
    requires Ended(s, gen) && Run(s, events).Some?
    ensures Ended(Run(s, events).value, gen)
    decreases |events|
  {
    if events != [] {
      StepKeepsEnded(s, events[0], gen);
      RunKeepsEnded(Step(s, events[0]).value, events[1..], gen);
    }
  }

  /** A command journals the end of `gen`: the last write of a disconnect, of a failed start
      (when its lease check found the lease free), or of a recovery. */
  predicate WritesEnd(s: State, e: CliEvent, gen: nat) {
    || (e.DisconnectFinish? && s.cli.DisconnectUnlinked? && s.cli.gen == gen)
    || (e.StartSave? && s.cli.StartChecked? && s.cli.gen == gen)
    || (e.RecoverSave? && s.cli.RecoverRestored? && s.cli.gen == gen)
  }

  predicate FromPrepared(s: State) {
    s.cli.RecoverRestored? && s.cli.phase.Prepared?
  }

  lemma EndIsEnded(s: State, e: CliEvent, gen: nat)
    requires Inv(s) && WritesEnd(s, e, gen) && (!FromPrepared(s) || Quiet(s))
    ensures CliStep(s, e).Some? && Ended(CliStep(s, e).value, gen)
  {
    StepKeeps(s, OfCli(e));
  }

  /** Once a disconnect has saved its last phase, once a failed start has saved its own, and
      once a recovery of a half-finished disconnect has saved `Disconnected`, no host of that
      generation ever serves again. */
  lemma FinalDisconnect(s: State, e: CliEvent, gen: nat, t: State, p: nat)
    requires s in ReachedFrom(INIT) && WritesEnd(s, e, gen) && !FromPrepared(s)
    requires CliStep(s, e).Some? && t in ReachedFrom(CliStep(s, e).value)
    requires p in t.hosts && t.hosts[p].gen == gen
    ensures !Serves(t.hosts[p])
  {
    ReachedInv(s);
    EndIsEnded(s, e, gen);
    var m := CliStep(s, e).value;
    var events :| Run(m, events) == Some(t);
    RunKeepsEnded(m, events, gen);
  }
}
