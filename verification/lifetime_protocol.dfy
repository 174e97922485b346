/**
 The connected-client lifetime protocol as a step relation.

 Command-line processes (connect, disconnect, status and the other queries) run one at a
 time, because each holds the transaction lock from its first read to its last write; any
 of them may stop between two steps.  Router hosts run beside them: a host reads the
 journal, takes the runtime lease, reads the journal again twice, binds and listens on the
 control socket, starts serving, reads the journal a last time and only then enters its
 accept loop.  A host may be arbitrarily late and may die anywhere.

 Every action below is one atomic effect on the shared files, lease and socket of the
 original.  `Step` gives the state after an event, or None where the event cannot happen.
 */
module LifetimeProtocol {
  import opened Wrappers

  datatype Phase = Prepared | Connected | Disconnecting | RestoreRequired | Disconnected

  datatype Journal = Absent | Record(gen: nat, phase: Phase)

  /** The check a host makes each time it reads the journal. */
  predicate Startable(j: Journal, gen: nat) {
    j.Record? && j.gen == gen && (j.phase == Prepared || j.phase == Connected)
  }

  /** Where a host process is; Closing and Draining are its cleanup, Gone means exited. */
  datatype Pc =
    | Spawned | Admitted | Leased | Checked | Rechecked
    | Bound | Listening | Serving | Accepting | Draining | Closing | Gone

  datatype Host = Host(gen: nat, pc: Pc, stopping: bool, queue: seq<nat>, reading: Option<nat>)

  /** One control connection: opened but silent, carrying a request, answered, or abandoned
      by the client (HungUp) or by the host's read timeout (Dropped). */
  datatype Conn = Waiting | Sent(stop: bool) | Answered(ready: bool) | HungUp | Dropped

  /** A status exchange of a command-line process. */
  datatype Talk = NoTalk | Opened(id: nat) | Asked(id: nat)

  /** The one command-line process inside the transaction lock, or Idle. */
  datatype Cli =
    | Idle
    | Query(gen: nat, talk: Talk)
    | DisconnectLoaded(gen: nat)
    | DisconnectSaved(gen: nat)
    | DisconnectRestored(gen: nat, failed: bool)
    | StopOpened(gen: nat, failed: bool, id: nat)
    | StopTried(gen: nat, failed: bool, settled: bool)
    | DisconnectQuiet(gen: nat, failed: bool)
    | DisconnectUnlinked(gen: nat, failed: bool)
    | ConnectLoaded(gen: nat, phase: Phase, talk: Talk)
    | RecoverQuiet(gen: nat, phase: Phase)
    | RecoverRestored(gen: nat, phase: Phase)
    | ConnectIdle
    | ConnectFree
    | ConnectPrepared(gen: nat)
    | ConnectConfigured(gen: nat)
    | ConnectWaiting(gen: nat, child: nat, talk: Talk)
    | StartFailed(gen: nat)
    | StartRestored(gen: nat)
    | StartChecked(gen: nat, active: bool)

  /** `lease` names the process whose lock description is held; it outlives that process
      while an engine guardian still holds the inherited descriptor.  `paths` is the control
      directory: which process bound the socket file of a generation.  `used` holds every
      generation ever drawn. */
  datatype State = State(
    journal: Journal,
    lease: Option<nat>,
    hosts: map<nat, Host>,
    paths: map<nat, nat>,
    conns: map<nat, Conn>,
    used: set<nat>,
    cli: Cli)

  const INIT := State(Absent, None, map[], map[], map[], {}, Idle)

  /** The control socket is opened with listen(2). */
  const BACKLOG: nat := 2

  datatype HostEvent =
    | Start | Lock | Recheck | Prebind | Bind | Listen | Serve | FinalCheck
    | Accept | Read(ready: bool) | ReadTimeout | Signal | Leave | Abort | Unlink
    | Close(lingering: bool) | Crash(lingering: bool) | GuardianExit

  datatype CliEvent =
    | QueryBegin
    | TalkOpen(id: nat) | TalkSend | TalkEnd
    | DisconnectBegin | DisconnectSave | DisconnectRestore(failed: bool)
    | StopOpen(id: nat) | StopRefused | StopFull | StopSend
    | DisconnectPoll | DisconnectGiveUp | DisconnectUnlink | DisconnectFinish
    | ConnectBegin | ConnectPromote
    | RecoverPoll | RecoverRestore | RecoverSave
    | ConnectPoll | ConnectJournal(gen: nat) | ConnectWrite | ConnectSpawn(pid: nat)
    | ConnectReady | ConnectChildDead | StartRestore | StartPoll | StartSave
    | Quit

  datatype Event = OfHost(pid: nat, he: HostEvent) | OfCli(ce: CliEvent)

  // ---------------------------------------------------------------- hosts

  predicate HoldsLease(h: Host) {
    !h.pc.Spawned? && !h.pc.Admitted? && !h.pc.Gone?
  }

  /** The host read the journal after taking the lease and found its own generation. */
  predicate PastRecheck(h: Host) {
    HoldsLease(h) && !h.pc.Leased? && !h.pc.Closing?
  }

  /** A connection attempt on the host's socket is queued by the kernel. */
  predicate Reachable(h: Host) {
    h.pc.Listening? || h.pc.Serving? || h.pc.Accepting? || h.pc.Draining?
  }

  /** The host's gateway thread may be answering clients. */
  predicate Serves(h: Host) {
    h.pc.Serving? || h.pc.Accepting? || h.pc.Draining?
  }

  function SetHost(s: State, p: nat, h: Host): State {
    s.(hosts := s.hosts[p := h])
  }

  function Move(s: State, p: nat, pc: Pc): State
    requires p in s.hosts
  {
    SetHost(s, p, s.hosts[p].(pc := pc))
  }

  /** One journal read by a host: go on to `pass`, else leave towards `fail`. */
  function Consult(s: State, p: nat, pass: Pc, fail: Pc): State
    requires p in s.hosts
  {
    Move(s, p, if Startable(s.journal, s.hosts[p].gen) then pass else fail)
  }

  function ReleaseLease(s: State, p: nat, lingering: bool): State {
    if s.lease == Some(p) && !lingering then s.(lease := None) else s
  }

  /** A host handles the request it is reading; a stop request sets its stop flag. */
  function ReadRequest(s: State, p: nat, ready: bool): Option<State>
    requires p in s.hosts && s.hosts[p].reading.Some?
  {
    var h := s.hosts[p];
    var id := h.reading.value;
    if id !in s.conns then None else
    match s.conns[id]
    case Sent(stop) =>
      var stopping := h.stopping || stop;
      Some(SetHost(s, p, h.(stopping := stopping, reading := None))
             .(conns := s.conns[id := Answered(!stopping && ready)]))
    case HungUp => Some(SetHost(s, p, h.(reading := None)))
    case _ => None
  }

  function HostStep(s: State, p: nat, e: HostEvent): Option<State> {
    if p !in s.hosts then None else
    var h := s.hosts[p];
    match e
    case Start => if h.pc.Spawned? then Some(Consult(s, p, Admitted, Gone)) else None
    case Lock =>
      if !h.pc.Admitted? then None
      else if s.lease.None? then Some(Move(s, p, Leased).(lease := Some(p)))
      else Some(Move(s, p, Gone))
    case Recheck => if h.pc.Leased? then Some(Consult(s, p, Checked, Closing)) else None
    case Prebind => if h.pc.Checked? then Some(Consult(s, p, Rechecked, Closing)) else None
    case Bind =>
      if h.pc.Rechecked? then Some(Move(s, p, Bound).(paths := s.paths[h.gen := p])) else None
    case Listen => if h.pc.Bound? then Some(Move(s, p, Listening)) else None
    case Serve => if h.pc.Listening? then Some(Move(s, p, Serving)) else None
    case FinalCheck => if h.pc.Serving? then Some(Consult(s, p, Accepting, Draining)) else None
    case Accept =>
      if h.pc.Accepting? && !h.stopping && h.reading.None? && h.queue != []
      then Some(SetHost(s, p, h.(reading := Some(h.queue[0]), queue := h.queue[1..]))) else None
    case Read(ready) =>
      if h.pc.Accepting? && h.reading.Some? then ReadRequest(s, p, ready) else None
    case ReadTimeout =>
      if h.pc.Accepting? && h.reading.Some? && h.reading.value in s.conns
         && s.conns[h.reading.value].Waiting?
      then Some(SetHost(s, p, h.(reading := None))
                  .(conns := s.conns[h.reading.value := Dropped])) else None
    case Signal => if h.pc.Accepting? then Some(SetHost(s, p, h.(stopping := true))) else None
    case Leave =>
      if h.pc.Accepting? && h.stopping && h.reading.None? then Some(Move(s, p, Draining)) else None
    case Abort =>
      if h.pc.Leased? || h.pc.Checked? || h.pc.Rechecked? then Some(Move(s, p, Closing))
      else if h.pc.Bound? || h.pc.Listening? || h.pc.Serving? || h.pc.Accepting?
      then Some(Move(s, p, Draining)) else None
    case Unlink =>
      if h.pc.Draining? then Some(Move(s, p, Closing).(paths := s.paths - {h.gen})) else None
    case Close(lingering) =>
      if h.pc.Closing? then Some(ReleaseLease(Move(s, p, Gone), p, lingering)) else None
    case Crash(lingering) =>
      if !h.pc.Gone? then Some(ReleaseLease(Move(s, p, Gone), p, lingering)) else None
    case GuardianExit =>
      if h.pc.Gone? && s.lease == Some(p) then Some(s.(lease := None)) else None
  }

  // ---------------------------------------------------------------- command-line processes

  /** The host a connection attempt for `gen` reaches, if its socket is listening. */
  function Target(s: State, gen: nat): Option<nat> {
    if gen in s.paths && s.paths[gen] in s.hosts && Reachable(s.hosts[s.paths[gen]])
    then Some(s.paths[gen]) else None
  }

  /** Open connection `id` to the control socket of `gen`. */
  function Enqueue(s: State, gen: nat, id: nat): Option<State> {
    var target := Target(s, gen);
    if target.None? || id in s.conns then None
    else
      var h := s.hosts[target.value];
      if |h.queue| > BACKLOG then None
      else Some(SetHost(s, target.value, h.(queue := h.queue + [id])).(conns := s.conns[id := Waiting]))
  }

  predicate IsWaiting(s: State, id: nat) {
    id in s.conns && s.conns[id].Waiting?
  }

  function HangUp(s: State, id: nat): State {
    if IsWaiting(s, id) then s.(conns := s.conns[id := HungUp]) else s
  }

  function TalkOf(c: Cli): Option<Talk> {
    match c
    case Query(_, talk) => Some(talk)
    case ConnectLoaded(_, phase, talk) => if phase.Prepared? then Some(talk) else None
    case ConnectWaiting(_, _, talk) => Some(talk)
    case _ => None
  }

  function WithTalk(c: Cli, talk: Talk): Cli
    requires TalkOf(c).Some?
  {
    match c
    case Query(gen, _) => Query(gen, talk)
    case ConnectLoaded(gen, phase, _) => ConnectLoaded(gen, phase, talk)
    case ConnectWaiting(gen, child, _) => ConnectWaiting(gen, child, talk)
  }

  /** The last status request of the command was answered "ready". */
  predicate Ready(s: State, talk: Talk) {
    talk.Asked? && talk.id in s.conns && s.conns[talk.id] == Answered(true)
  }

  /** A command stops at any point: return, error or crash.  A silent connection hangs up. */
  function Abandon(s: State): State {
    var open := match s.cli
      case StopOpened(_, _, id) => Some(id)
      case Query(_, Opened(id)) => Some(id)
      case ConnectLoaded(_, _, Opened(id)) => Some(id)
      case ConnectWaiting(_, _, Opened(id)) => Some(id)
      case _ => None;
    (if open.Some? then HangUp(s, open.value) else s).(cli := Idle)
  }

  function TalkStep(s: State, e: CliEvent): Option<State>
    requires e.TalkOpen? || e.TalkSend? || e.TalkEnd?
  {
    var talk := TalkOf(s.cli);
    if talk.None? then None else
    match e
    case TalkOpen(id) =>
      if !talk.value.NoTalk? then None else
      var linked := Enqueue(s, s.cli.gen, id);
      if linked.None? then None else Some(linked.value.(cli := WithTalk(s.cli, Opened(id))))
    case TalkSend =>
      if !talk.value.Opened? then None
      else if IsWaiting(s, talk.value.id)
      then Some(s.(conns := s.conns[talk.value.id := Sent(false)], cli := WithTalk(s.cli, Asked(talk.value.id))))
      else Some(s.(cli := WithTalk(s.cli, NoTalk)))
    case TalkEnd =>
      if talk.value.NoTalk? then None
      else Some(HangUp(s, talk.value.id).(cli := WithTalk(s.cli, NoTalk)))
  }

  function DisconnectStep(s: State, e: CliEvent): Option<State>
    requires e.DisconnectBegin? || e.DisconnectSave? || e.DisconnectRestore? || e.StopOpen? || e.StopRefused?
             || e.StopFull? || e.StopSend? || e.DisconnectPoll? || e.DisconnectGiveUp?
             || e.DisconnectUnlink? || e.DisconnectFinish?
  {
    match (e, s.cli)
    case (DisconnectBegin, Idle) =>
      if s.journal.Record? && !s.journal.phase.Disconnected?
      then Some(s.(cli := DisconnectLoaded(s.journal.gen))) else None
    case (DisconnectSave, DisconnectLoaded(g)) =>
      Some(s.(journal := Record(g, Disconnecting), cli := DisconnectSaved(g)))
    case (DisconnectRestore(failed), DisconnectSaved(g)) => Some(s.(cli := DisconnectRestored(g, failed)))
    case (StopOpen(id), DisconnectRestored(g, failed)) =>
      var linked := Enqueue(s, g, id);
      if linked.None? then None else Some(linked.value.(cli := StopOpened(g, failed, id)))
    case (StopRefused, DisconnectRestored(g, failed)) =>
      if Target(s, g).None? then Some(s.(cli := StopTried(g, failed, true))) else None
    case (StopFull, DisconnectRestored(g, failed)) =>
      if Target(s, g).Some? && |s.hosts[Target(s, g).value].queue| > BACKLOG
      then Some(s.(cli := StopTried(g, failed, false))) else None
    case (StopSend, StopOpened(g, failed, id)) =>
      if IsWaiting(s, id)
      then Some(s.(conns := s.conns[id := Sent(true)], cli := StopTried(g, failed, true)))
      else Some(s.(cli := StopTried(g, failed, false)))
    case (DisconnectPoll, StopTried(g, failed, _)) =>
      if s.lease.None? then Some(s.(cli := DisconnectQuiet(g, failed))) else None
    case (DisconnectGiveUp, StopTried(g, failed, _)) =>
      Some(s.(journal := Record(g, Disconnecting), cli := Idle))
    case (DisconnectUnlink, DisconnectQuiet(g, failed)) =>
      Some(s.(paths := s.paths - {g}, cli := DisconnectUnlinked(g, failed)))
    case (DisconnectFinish, DisconnectUnlinked(g, failed)) =>
      Some(s.(journal := Record(g, if failed then RestoreRequired else Disconnected), cli := Idle))
    case _ => None
  }

  /** connect before it draws a generation: what an earlier command left is finished first. */
  function RecoverStep(s: State, e: CliEvent): Option<State>
    requires e.ConnectBegin? || e.ConnectPromote? || e.RecoverPoll? || e.RecoverRestore? || e.RecoverSave?
             || e.ConnectPoll?
  {
    match (e, s.cli)
    case (ConnectBegin, Idle) =>
      if s.journal.Absent? || s.journal.phase.Disconnected? then Some(s.(cli := ConnectIdle))
      else if s.journal.phase.Prepared? || s.journal.phase.Disconnecting?
      then Some(s.(cli := ConnectLoaded(s.journal.gen, s.journal.phase, NoTalk)))
      else if s.journal.phase.Connected? then Some(s.(cli := Query(s.journal.gen, NoTalk)))
      else None
    case (ConnectPromote, ConnectLoaded(g, phase, talk)) =>
      if phase.Prepared? && Ready(s, talk)
      then Some(s.(journal := Record(g, Connected), cli := Query(g, NoTalk))) else None
    case (RecoverPoll, ConnectLoaded(g, phase, talk)) =>
      if talk.NoTalk? && s.lease.None? then Some(s.(cli := RecoverQuiet(g, phase))) else None
    case (RecoverRestore, RecoverQuiet(g, phase)) => Some(s.(cli := RecoverRestored(g, phase)))
    case (RecoverSave, RecoverRestored(g, _)) =>
      Some(s.(journal := Record(g, Disconnected), cli := ConnectIdle))
    case (ConnectPoll, ConnectIdle) => if s.lease.None? then Some(s.(cli := ConnectFree)) else None
    case _ => None
  }

  /** connect with a fresh generation: journal it, write the configuration, spawn the host and
      wait for it, undoing everything if the host is gone before it was ever ready. */
  function LaunchStep(s: State, e: CliEvent): Option<State>
    requires e.ConnectJournal? || e.ConnectWrite? || e.ConnectSpawn?
             || e.ConnectReady? || e.ConnectChildDead? || e.StartRestore? || e.StartPoll? || e.StartSave?
  {
    match (e, s.cli)
    case (ConnectJournal(g), ConnectFree) =>
      if g in s.used then None
      else Some(s.(journal := Record(g, Prepared), used := s.used + {g}, cli := ConnectPrepared(g)))
    case (ConnectWrite, ConnectPrepared(g)) => Some(s.(cli := ConnectConfigured(g)))
    case (ConnectSpawn(p), ConnectConfigured(g)) =>
      if p in s.hosts then None
      else Some(SetHost(s, p, Host(g, Spawned, false, [], None)).(cli := ConnectWaiting(g, p, NoTalk)))
    case (ConnectReady, ConnectWaiting(g, _, talk)) =>
      if Ready(s, talk) then Some(s.(journal := Record(g, Connected), cli := Query(g, NoTalk))) else None
    case (ConnectChildDead, ConnectWaiting(g, p, NoTalk)) =>
      if p in s.hosts && s.hosts[p].pc.Gone? then Some(s.(cli := StartFailed(g))) else None
    case (StartRestore, StartFailed(g)) => Some(s.(cli := StartRestored(g)))
    case (StartPoll, StartRestored(g)) => Some(s.(cli := StartChecked(g, s.lease.Some?)))
    case (StartSave, StartChecked(g, active)) =>
      Some(s.(journal := Record(g, if active then Disconnecting else Disconnected), cli := Idle))
    case _ => None
  }

  function CliStep(s: State, e: CliEvent): Option<State> {
    match e
    case QueryBegin =>
      if s.cli.Idle? && s.journal.Record? && !s.journal.phase.Disconnected? && !s.journal.phase.RestoreRequired?
      then Some(s.(cli := Query(s.journal.gen, NoTalk))) else None
    case Quit => Some(Abandon(s))
    case TalkOpen(_) => TalkStep(s, e)
    case TalkSend => TalkStep(s, e)
    case TalkEnd => TalkStep(s, e)
    case ConnectBegin => RecoverStep(s, e)
    case ConnectPromote => RecoverStep(s, e)
    case RecoverPoll => RecoverStep(s, e)
    case RecoverRestore => RecoverStep(s, e)
    case RecoverSave => RecoverStep(s, e)
    case ConnectPoll => RecoverStep(s, e)
    case ConnectJournal(_) => LaunchStep(s, e)
    case ConnectWrite => LaunchStep(s, e)
    case ConnectSpawn(_) => LaunchStep(s, e)
    case ConnectReady => LaunchStep(s, e)
    case ConnectChildDead => LaunchStep(s, e)
    case StartRestore => LaunchStep(s, e)
    case StartPoll => LaunchStep(s, e)
    case StartSave => LaunchStep(s, e)
    case _ => DisconnectStep(s, e)
  }

  function Step(s: State, e: Event): Option<State> {
    match e
    case OfHost(p, he) => HostStep(s, p, he)
    case OfCli(ce) => CliStep(s, ce)
  }

  /** The state after a whole run, or None if some event of it could not happen. */
  function Run(s: State, events: seq<Event>): Option<State>
    decreases |events|
  {
    if events == [] then Some(s)
    else
      var next := Step(s, events[0]);
      if next.None? then None else Run(next.value, events[1..])
  }

  /** The states that runs from `s` lead to. */
  ghost function ReachedFrom(s: State): iset<State> {
    iset t: State | exists events :: Run(s, events) == Some(t)
  }
}
