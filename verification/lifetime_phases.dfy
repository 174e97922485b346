/**
 What the journal tells, over whole runs: which write leaves which phase, that a configuration
 with settings of Hormuz in it always has a journal to restore it from, that `Connected` means a
 host has answered, and how far a host gets that comes too late.
 */
module LifetimePhases {
  import opened Wrappers
  import opened LifetimeProtocol
  import opened LifetimeSafety
  import opened LifetimeWitnesses

  // ---------------------------------------------------------------- runs by their last event

  lemma {:induction false} RunSplit(s: State, events: seq<Event>, e: Event)
    requires Run(s, events + [e]).Some?
    ensures Run(s, events).Some? && Step(Run(s, events).value, e) == Run(s, events + [e])
    decreases |events|
  {
    var all := events + [e];
    if events == [] {
      assert all == [e] && all[1..] == [];
    } else {
      assert all[0] == events[0] && all[1..] == events[1..] + [e];
      RunSplit(Step(s, events[0]).value, events[1..], e);
    }
  }

  function Front(events: seq<Event>): seq<Event>
    requires events != []
  {
    events[..|events| - 1]
  }

  function Last(events: seq<Event>): Event
    requires events != []
  {
    events[|events| - 1]
  }

  lemma ByLastEvent(events: seq<Event>, s: State) returns (before: State)
    requires events != [] && Run(INIT, events) == Some(s)
    ensures Run(INIT, Front(events)) == Some(before) && Inv(before)
    ensures Step(before, Last(events)) == Some(s)
  {
    assert events == Front(events) + [Last(events)];
    RunSplit(INIT, Front(events), Last(events));
    RunKeeps(INIT, Front(events));
    before := Run(INIT, Front(events)).value;
  }

  // ---------------------------------------------------------------- single steps

  /** A disconnect between its restoration and its last write. */
  predicate Restored(c: Cli) {
    c.DisconnectRestored? || c.StopOpened? || c.StopTried? || c.DisconnectQuiet? || c.DisconnectUnlinked?
  }

  /** A restoration of the user's configuration that went well. */
  predicate IsRestore(e: Event) {
    e == OfCli(DisconnectRestore(false)) || e == OfCli(RecoverRestore) || e == OfCli(StartRestore)
  }

  /** The command has restored the configuration and may yet journal that. */
  predicate HasRestored(c: Cli) {
    (Restored(c) && !c.failed) || c.RecoverRestored? || c.StartRestored? || c.StartChecked?
  }

  /** The one event that may take the journal from one phase of a generation to another. */
  predicate MovesPhase(e: CliEvent, before: Phase, after: Phase) {
    match e
    case DisconnectSave => !before.Disconnected? && after.Disconnecting?
    case DisconnectFinish => before.Disconnecting? && (after.Disconnected? || after.RestoreRequired?)
    case ConnectPromote => before.Prepared? && after.Connected?
    case ConnectReady => before.Prepared? && after.Connected?
    case RecoverSave => (before.Prepared? || before.Disconnecting?) && after.Disconnected?
    case StartSave => before.Prepared? && (after.Disconnecting? || after.Disconnected?)
    case _ => false
  }

  /** A restored disconnect keeps the outcome of its restoration. */
  predicate KeepsOutcome(s: State, e: Event, t: State) {
    Restored(t.cli) ==>
      if Restored(s.cli)
      then t.cli.failed == s.cli.failed && e != OfCli(DisconnectBegin) && !(e.OfCli? && e.ce.DisconnectRestore?)
      else e == OfCli(DisconnectRestore(t.cli.failed))
  }

  /** Only a restoration makes a command one that has restored. */
  predicate RestoresFirst(s: State, e: Event, t: State) {
    HasRestored(t.cli) ==> IsRestore(e) || (HasRestored(s.cli) && e != OfCli(ConnectWrite))
  }

  predicate UnlinksFirst(s: State, t: State) {
    t.cli.DisconnectUnlinked? ==>
      t.cli.gen !in t.paths || (s.cli == t.cli && s.paths == t.paths)
  }

  predicate MovesJournal(s: State, e: Event, t: State) {
    t.journal != s.journal ==>
      && e.OfCli? && t.journal.Record?
      && (t.journal.phase.Disconnected? ==> HasRestored(s.cli))
      && if e.ce.ConnectJournal?
         then Stopped(s.journal) && t.journal == Record(e.ce.gen, Prepared) && t.journal.gen !in s.used
         else s.journal.Record? && t.journal.gen == s.journal.gen && MovesPhase(e.ce, s.journal.phase, t.journal.phase)
  }

  /** A query asks about a generation that may still be served. */
  predicate QueryOk(s: State) {
    s.cli.Query? ==>
      && s.journal.Record? && s.journal.gen == s.cli.gen
      && !s.journal.phase.Disconnected? && !s.journal.phase.RestoreRequired?
  }

  /** What the proofs below use of a step. */
  predicate Follows(s: State, e: Event, t: State) {
    && (QueryOk(s) ==> QueryOk(t))
    && KeepsOutcome(s, e, t) && RestoresFirst(s, e, t) && UnlinksFirst(s, t) && MovesJournal(s, e, t)
    && (e == OfCli(ConnectWrite) ==> s.journal.Record? && t.journal == s.journal && s.journal.phase.Prepared?)
    && (e.OfCli? && e.ce.ConnectJournal? ==> t.journal == Record(e.ce.gen, Prepared) && s.journal != t.journal)
  }

  /** A command neither takes nor frees the lease, and binds no socket. */
  predicate LeavesLease(s: State, t: State) {
    t.lease == s.lease && forall gen :: gen in t.paths ==> gen in s.paths && t.paths[gen] == s.paths[gen]
  }

  lemma DisconnectFollows(s: State, e: CliEvent, t: State)
    requires Inv(s) && DisconnectStep.requires(s, e) && DisconnectStep(s, e) == Some(t)
    ensures Follows(s, OfCli(e), t)
    ensures LeavesLease(s, t)
  {
  }

  lemma RecoverFollows(s: State, e: CliEvent, t: State)
    requires Inv(s) && RecoverStep.requires(s, e) && RecoverStep(s, e) == Some(t)
    ensures Follows(s, OfCli(e), t)
    ensures LeavesLease(s, t)
  {
  }

  lemma LaunchFollows(s: State, e: CliEvent, t: State)
    requires Inv(s) && LaunchStep.requires(s, e) && LaunchStep(s, e) == Some(t)
    ensures Follows(s, OfCli(e), t)
    ensures LeavesLease(s, t)
  {
  }

  lemma OthersFollow(s: State, e: CliEvent, t: State)
    requires e.TalkOpen? || e.TalkSend? || e.TalkEnd? || e.QueryBegin? || e.Quit?
    requires CliStep(s, e) == Some(t)
    ensures Follows(s, OfCli(e), t)
    ensures LeavesLease(s, t)
  {
  }

  /** With no host past its recheck none binds or unlinks a socket. */
  lemma HostFollows(s: State, p: nat, e: HostEvent, t: State)
    requires Inv(s) && HostStep(s, p, e) == Some(t)
    ensures t.cli == s.cli && t.journal == s.journal
    ensures s.cli.DisconnectUnlinked? ==> t.paths == s.paths
  {
    HostStepLocal(s, p, e);
  }

  lemma CliFollows(s: State, e: CliEvent, t: State)
    requires Inv(s) && CliStep(s, e) == Some(t)
    ensures Follows(s, OfCli(e), t)
    ensures LeavesLease(s, t)
  {
    if e.TalkOpen? || e.TalkSend? || e.TalkEnd? || e.QueryBegin? || e.Quit? {
      OthersFollow(s, e, t);
    } else if RecoverStep.requires(s, e) {
      RecoverFollows(s, e, t);
    } else if LaunchStep.requires(s, e) {
      LaunchFollows(s, e, t);
    } else {
      DisconnectFollows(s, e, t);
    }
  }

  lemma StepFollows(s: State, e: Event, t: State)
    requires Inv(s) && Step(s, e) == Some(t)
    ensures Follows(s, e, t)
    ensures e.OfHost? ==> t.cli == s.cli && t.journal == s.journal
  {
    match e
    case OfHost(p, he) => HostFollows(s, p, he, t);
    case OfCli(ce) => CliFollows(s, ce, t);
  }

  // ---------------------------------------------------------------- the end of a disconnect

  /** Whether the restoration of the disconnect begun last failed, once it has been tried. */
  function LastRestore(events: seq<Event>): Option<bool>
    decreases |events|
  {
    if events == [] then None
    else match Last(events)
      case OfCli(DisconnectBegin) => None
      case OfCli(DisconnectRestore(failed)) => Some(failed)
      case _ => LastRestore(Front(events))
  }

  lemma {:induction false} RemembersRestore(events: seq<Event>, s: State)
    requires Run(INIT, events) == Some(s)
    ensures Restored(s.cli) ==> LastRestore(events) == Some(s.cli.failed)
    ensures s.cli.DisconnectUnlinked? ==> s.cli.gen !in s.paths
    decreases |events|
  {
    if events != [] {
      var before := ByLastEvent(events, s);
      StepFollows(before, Last(events), s);
      RemembersRestore(Front(events), before);
    }
  }

  /** The write that ends a disconnect leaves `Disconnected` if that disconnect's restoration
      did not fail, and `RestoreRequired` if it did, of the generation it journalled, whose
      socket file is gone. */
  lemma DisconnectEnds(events: seq<Event>, s: State, t: State)
    requires Run(INIT, events) == Some(s) && Step(s, OfCli(DisconnectFinish)) == Some(t)
    ensures s.journal.Record? && s.journal.phase == Disconnecting && LastRestore(events).Some?
    ensures t.journal == Record(s.journal.gen, if LastRestore(events).value then RestoreRequired else Disconnected)
    ensures s.journal.gen !in t.paths
  {
    RunKeeps(INIT, events);
    RemembersRestore(events, s);
    Finishes(s, t);
  }

  lemma Finishes(s: State, t: State)
    requires Inv(s) && Step(s, OfCli(DisconnectFinish)) == Some(t)
    ensures s.cli.DisconnectUnlinked? && s.journal == Record(s.cli.gen, Disconnecting)
    ensures t == s.(journal := Record(s.cli.gen, if s.cli.failed then RestoreRequired else Disconnected), cli := Idle)
  {
  }

  // ---------------------------------------------------------------- the phases of the journal

  /** Every change of the journal moves the phase of the generation in it, or puts a generation
      never drawn before, `Prepared`, in place of none or of a disconnected one. */
  lemma JournalMoves(s: State, e: Event)
    requires s in ReachedFrom(INIT) && Step(s, e).Some? && Step(s, e).value.journal != s.journal
    ensures var j := Step(s, e).value.journal;
      && e.OfCli? && j.Record?
      && if e.ce.ConnectJournal?
         then Stopped(s.journal) && j == Record(e.ce.gen, Prepared) && j.gen !in s.used
         else s.journal.Record? && j.gen == s.journal.gen && MovesPhase(e.ce, s.journal.phase, j.phase)
  {
    ReachedInv(s);
    StepFollows(s, e, Step(s, e).value);
  }

  /** A launch that failed ends as `Disconnected` if the lease was free when it looked, and as
      `Disconnecting` if not, whatever hosts do in between. */
  lemma LaunchEnds(s: State, polled: State, hosts: seq<Event>, t: State)
    requires s in ReachedFrom(INIT) && Step(s, OfCli(StartPoll)) == Some(polled)
    requires forall i :: 0 <= i < |hosts| ==> hosts[i].OfHost?
    requires Run(polled, hosts) == Some(t)
    ensures Step(t, OfCli(StartSave)).Some? && s.journal.Record?
    ensures Step(t, OfCli(StartSave)).value.journal == Record(s.journal.gen, if s.lease.None? then Disconnected else Disconnecting)
  {
    ReachedInv(s);
    HostsLeaveCommand(polled, hosts, t);
    Polled(s, polled);
    Saves(t);
  }

  lemma Polled(s: State, t: State)
    requires Inv(s) && Step(s, OfCli(StartPoll)) == Some(t)
    ensures s.journal.Record? && t == s.(cli := StartChecked(s.journal.gen, s.lease.Some?))
  {
  }

  lemma Saves(s: State)
    requires s.cli.StartChecked?
    ensures Step(s, OfCli(StartSave)).Some?
    ensures Step(s, OfCli(StartSave)).value.journal == Record(s.cli.gen, if s.cli.active then Disconnecting else Disconnected)
  {
  }

  lemma {:induction false} HostsLeaveCommand(s: State, hosts: seq<Event>, t: State)
    requires Run(s, hosts) == Some(t) && forall i :: 0 <= i < |hosts| ==> hosts[i].OfHost?
    ensures t.cli == s.cli && t.journal == s.journal
    decreases |hosts|
  {
    if hosts != [] {
      HostStepLocal(s, hosts[0].pid, hosts[0].he);
      HostsLeaveCommand(Step(s, hosts[0]).value, hosts[1..], t);
    }
  }

  /** In every reachable state a query is about the journalled generation, and that is neither
      disconnected nor waiting to be restored. */
  lemma {:induction false} QueriesAreLive(events: seq<Event>, s: State)
    requires Run(INIT, events) == Some(s)
    ensures QueryOk(s)
    decreases |events|
  {
    if events != [] {
      var before := ByLastEvent(events, s);
      QueriesAreLive(Front(events), before);
      StepFollows(before, Last(events), s);
    }
  }

  // ---------------------------------------------------------------- the user's configuration

  /** The generation drawn last. */
  function LastDrawn(events: seq<Event>): Option<nat>
    decreases |events|
  {
    if events == [] then None
    else match Last(events)
      case OfCli(ConnectJournal(gen)) => Some(gen)
      case _ => LastDrawn(Front(events))
  }

  /** The generation whose settings stand in the user's configuration: written and not restored since. */
  function InConfiguration(events: seq<Event>): Option<nat>
    decreases |events|
  {
    if events == [] then None
    else if Last(events) == OfCli(ConnectWrite) then LastDrawn(events)
    else if IsRestore(Last(events)) then None
    else InConfiguration(Front(events))
  }

  /** While a configuration holds settings of a generation, the journal names that generation,
      the one drawn last, in a phase other than `Disconnected`: the record to restore it from is
      never lost, and nothing is journalled as disconnected before it has been restored. */
  lemma {:induction false} ConfigurationOwned(events: seq<Event>, s: State)
    requires Run(INIT, events) == Some(s)
    ensures s.journal.Record? ==> LastDrawn(events) == Some(s.journal.gen)
    ensures InConfiguration(events).Some? ==>
      !Stopped(s.journal) && s.journal.gen == InConfiguration(events).value && !HasRestored(s.cli)
    decreases |events|
  {
    if events != [] {
      var before := ByLastEvent(events, s);
      ConfigurationOwned(Front(events), before);
      StepFollows(before, Last(events), s);
    }
  }

  /** The journal asks for a restoration that has not gone well yet. */
  predicate Unrestored(s: State, gen: nat) {
    && s.journal.Record? && s.journal.gen == gen
    && (s.journal.phase.RestoreRequired? || s.journal.phase.Disconnecting?)
    && !HasRestored(s.cli)
  }

  lemma {:induction false} StaysUnrestored(s: State, events: seq<Event>, t: State, gen: nat)
    requires Inv(s) && Unrestored(s, gen) && Run(s, events) == Some(t)
    requires forall i :: 0 <= i < |events| ==> !IsRestore(events[i])
    ensures Unrestored(t, gen)
    decreases |events|
  {
    if events != [] {
      var next := Step(s, events[0]).value;
      StepKeeps(s, events[0]);
      StepFollows(s, events[0], next);
      StaysUnrestored(next, events[1..], t, gen);
    }
  }

  lemma {:induction false} OnlyDisconnectLeaves(s: State, events: seq<Event>, t: State)
    requires Inv(s) && s.journal.Record? && s.journal.phase.RestoreRequired? && Run(s, events) == Some(t)
    requires OfCli(DisconnectSave) !in events
    ensures t.journal == s.journal
    decreases |events|
  {
    if events != [] {
      var next := Step(s, events[0]).value;
      StepKeeps(s, events[0]);
      StepFollows(s, events[0], next);
      OnlyDisconnectLeaves(next, events[1..], t);
    }
  }

  lemma RestoreNeededIsUnrestored(s: State)
    requires Inv(s) && s.journal.Record? && s.journal.phase.RestoreRequired?
    ensures Unrestored(s, s.journal.gen)
  {
  }

  /** From `RestoreRequired` only a new disconnect changes the journal, and until a restoration
      has gone well no run journals another generation or says that this one is disconnected. */
  lemma RestoreRequiredStays(s: State, events: seq<Event>, t: State)
    requires s in ReachedFrom(INIT) && s.journal.Record? && s.journal.phase.RestoreRequired?
    requires Run(s, events) == Some(t)
    ensures OfCli(DisconnectSave) !in events ==> t.journal == s.journal
    ensures (forall i :: 0 <= i < |events| ==> !IsRestore(events[i])) ==>
      t.journal == Record(s.journal.gen, RestoreRequired) || t.journal == Record(s.journal.gen, Disconnecting)
  {
    ReachedInv(s);
    if OfCli(DisconnectSave) !in events {
      OnlyDisconnectLeaves(s, events, t);
    }
    if forall i :: 0 <= i < |events| ==> !IsRestore(events[i]) {
      RestoreNeededIsUnrestored(s);
      StaysUnrestored(s, events, t, s.journal.gen);
    }
  }
}
