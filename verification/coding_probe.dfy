/**
 The bounded qualification probe: one operator plan lets a bounded number of requests through, and
 each claimed request must extend the one claimed before it.

 The digest of an input and the fresh probe identifiers are parameters; the checks of headers,
 route and profile that compare a request with fixed facts are facts of the request. Times are in
 microseconds. Inputs are those after the client's message identifiers were dropped.
 */
module CodingProbes {
  import opened Wrappers

  // ---------------------------------------------------------------- requests and plans

  /** An item of a request's input: an object with its type and role, if it has them, or another
      value. `content` stands for everything else about it. */
  datatype Item = Object(kind: Option<string>, role: Option<string>, content: nat) | Other(content: nat)

  /** The input of a request: a list of items, or anything else. */
  datatype Input = Items(items: seq<Item>) | Scalar(content: nat)

  type Digest = nat

  type Hash = Input -> Digest

  ghost predicate Injective(hash: Hash) {
    forall a, b :: hash(a) == hash(b) ==> a == b
  }

  datatype Plan = Plan(firstInput: Digest, maxRequests: nat, model: string, clientVersion: string, profile: Digest, elapsed: nat)

  /** What a request says. `arrival` tells requests apart. */
  datatype Request = Request(
    arrival: nat, probeIds: seq<nat>, actor: string, client: string, path: string,
    requestedModel: string, resolvedModel: string, generation: nat,
    agentVersion: Option<string>, profile: Digest, hasConversation: bool, hasProviderState: bool, input: Input)

  /** A request in the hands of the gateway: its work identifier once bound, and the marks the
      probe leaves on it. */
  datatype Handler = Handler(request: Request, workId: Option<string>, claimed: bool, first: bool)

  datatype Error = InvalidPlan | AlreadyActive | Unsuitable(reason: string) | RequestMismatch

  datatype State = Inactive | Armed | Running | Exhausted | Expired | Revoked

  datatype Probe = Probe(
    plan: Option<Plan>, revoked: bool, count: nat, workId: Option<string>,
    firstLength: nat, lastLength: nat, lastInput: Digest,
    probeId: nat, actor: string, generation: nat, deadline: int)

  const IDLE := Probe(None, false, 0, None, 0, 0, 0, 0, "", 0, 0)

  // ---------------------------------------------------------------- operations on values

  function RemainingMs(p: Probe, now: int): nat {
    if p.plan.None? || p.deadline <= now then 0 else (p.deadline - now) / 1000
  }

  function StatusOf(p: Probe, now: int): State {
    if p.plan.None? then Inactive
    else if p.revoked then Revoked
    else if RemainingMs(p, now) == 0 then Expired
    else if p.count >= p.plan.value.maxRequests then Exhausted
    else if p.count > 0 then Running
    else Armed
  }

  /** Where a plan would be installed: whether the contract accepts it, what speaks against it, and
      the generation of its destination. */
  datatype Setting = Setting(wellFormed: bool, obstacle: Option<string>, generation: nat)

  function Controlled(p: Probe, actor: string, plan: Option<Plan>, revoke: bool, at: Setting, freshId: nat, now: int): Result<Probe, Error> {
    if revoke && plan.Some? then Failure(InvalidPlan)
    else if revoke then Success(p.(revoked := true))
    else if plan.None? then Success(p)
    else if !at.wellFormed then Failure(InvalidPlan)
    else if StatusOf(p, now) in {Armed, Running, Exhausted} then Failure(AlreadyActive)
    else if at.obstacle.Some? then Failure(Unsuitable(at.obstacle.value))
    else Success(p.(plan := plan, probeId := freshId, actor := actor, generation := at.generation,
                    deadline := now + plan.value.elapsed, revoked := false, count := 0, workId := None))
  }

  /** Items a client may add to a conversation. */
  predicate MayAdd(item: Item) {
    && item.Object?
    && (item.kind == Some("function_call") || item.kind == Some("function_call_output")
        || ((item.kind == None || item.kind == Some("message")) && item.role == Some("assistant")))
  }

  function Length(input: Input): nat {
    if input.Items? then |input.items| else 1
  }

  /** The first `n` items of a list. */
  function Prefix(input: Input, n: nat): Input
    requires input.Items? && n <= |input.items|
  {
    Items(input.items[..n])
  }

  /** The request comes from the plan's actor, client and route, while the probe is open. */
  predicate Addressed(p: Probe, h: Handler, now: int) {
    var r := h.request;
    && p.plan.Some? && !p.revoked && now < p.deadline
    && (h.claimed || p.count < p.plan.value.maxRequests)
    && r.probeIds == [p.probeId] && r.actor == p.actor && r.client == "codex" && r.path == "/v1/responses"
    && r.requestedModel == p.plan.value.model && r.resolvedModel == p.plan.value.model && r.generation == p.generation
    && r.agentVersion == Some(p.plan.value.clientVersion) && r.profile == p.plan.value.profile && r.hasConversation
  }

  predicate IsFirst(p: Probe, h: Handler) {
    p.workId.None? || (h.claimed && h.first)
  }

  /** A later request: bound to the same work, it extends the first input and, unless it was
      claimed already, the last one, by items a client may add. */
  predicate Extends(hash: Hash, p: Probe, h: Handler) {
    var input := h.request.input;
    && h.workId == p.workId && input.Items? && p.firstLength < |input.items|
    && p.plan.Some? && hash(Prefix(input, p.firstLength)) == p.plan.value.firstInput
    && (h.claimed || (p.lastLength < |input.items| && hash(Prefix(input, p.lastLength)) == p.lastInput))
    && h.request.hasProviderState
    && forall i :: p.firstLength <= i < |input.items| ==> MayAdd(input.items[i])
  }

  predicate Fits(hash: Hash, p: Probe, h: Handler, now: int) {
    && Addressed(p, h, now)
    && if IsFirst(p, h) then !h.request.hasProviderState && hash(h.request.input) == p.plan.value.firstInput
       else Extends(hash, p, h)
  }

  /** The probe and the request after a claim. */
  function Claim(hash: Hash, p: Probe, h: Handler): (Probe, Handler) {
    var n := Length(h.request.input);
    var first := IsFirst(p, h);
    (p.(workId := if first then h.workId else p.workId,
        firstLength := if first then n else p.firstLength,
        lastLength := n, lastInput := hash(h.request.input), count := p.count + 1),
     h.(claimed := true, first := first))
  }

  function Checked(hash: Hash, p: Probe, h: Handler, now: int, claim: bool): Result<(Probe, Handler), Error> {
    if !Fits(hash, p, h, now) then Failure(RequestMismatch)
    else if !claim || h.claimed then Success((p, h))
    else if h.workId.None? || h.workId.value == "" then Failure(RequestMismatch)
    else Success(Claim(hash, p, h))
  }

  // ---------------------------------------------------------------- the object

  class RequestHandler {
    const request: Request
    var workId: Option<string>
    var claimed: bool
    var first: bool

    constructor (request: Request)
      ensures this.request == request && workId == None && !claimed && !first
    {
      this.request := request;
      workId, claimed, first := None, false, false;
    }

    function Value(): Handler
      reads this
    {
      Handler(request, workId, claimed, first)
    }
  }

  class CodingProbe {
    const hash: Hash
    var plan: Option<Plan>
    var revoked: bool
    var count: nat
    var workId: Option<string>
    var firstLength: nat
    var lastLength: nat
    var lastInput: Digest
    var probeId: nat
    var actor: string
    var generation: nat
    var deadline: int

    constructor (hash: Hash)
      ensures this.hash == hash && Value() == IDLE
    {
      this.hash := hash;
      plan, revoked, count, workId := None, false, 0, None;
      firstLength, lastLength, lastInput, probeId, actor, generation, deadline := 0, 0, 0, 0, "", 0, 0;
    }

    function Value(): Probe
      reads this
    {
      Probe(plan, revoked, count, workId, firstLength, lastLength, lastInput, probeId, actor, generation, deadline)
    }

    method Status(now: int) returns (state: State, remaining: nat)
      ensures state == StatusOf(Value(), now) && remaining == if revoked then 0 else RemainingMs(Value(), now)
    {
      var left := if plan.None? || deadline <= now then 0 else (deadline - now) / 1000;
      if plan.None? {
        state := Inactive;
      } else if revoked {
        state := Revoked;
      } else if left == 0 {
        state := Expired;
      } else if count >= plan.value.maxRequests {
        state := Exhausted;
      } else {
        state := if count > 0 then Running else Armed;
      }
      remaining := if revoked then 0 else left;
    }

    method Control(who: string, plan: Option<Plan>, revoke: bool, at: Setting, freshId: nat, now: int)
      returns (r: Result<State, Error>)
      modifies this
      ensures var after := Controlled(old(Value()), who, plan, revoke, at, freshId, now);
        match after
        case Success(p) => Value() == p && r == Success(StatusOf(p, now))
        case Failure(error) => Value() == old(Value()) && r == Failure(error)
    {
      if revoke && plan.Some? {
        return Failure(InvalidPlan);
      }
      if revoke {
        revoked := true;
      } else if plan.Some? {
        if !at.wellFormed {
          return Failure(InvalidPlan);
        }
        var current, _ := Status(now);
        if current in {Armed, Running, Exhausted} {
          return Failure(AlreadyActive);
        }
        if at.obstacle.Some? {
          return Failure(Unsuitable(at.obstacle.value));
        }
        this.plan := plan;
        probeId := freshId;
        actor := who;
        generation := at.generation;
        deadline := now + plan.value.elapsed;
        revoked, count, workId := false, 0, None;
      }
      var state, _ := Status(now);
      return Success(state);
    }

    method Check(handler: RequestHandler, now: int, claim: bool) returns (r: Result<(), Error>)
      modifies this, handler
      ensures var after := Checked(hash, old(Value()), old(handler.Value()), now, claim);
        match after
        case Success((p, h)) => Value() == p && handler.Value() == h && r == Success(())
        case Failure(error) => Value() == old(Value()) && handler.Value() == old(handler.Value()) && r == Failure(error)
    {
      var h := handler.Value();
      if !Addressed(Value(), h, now) {
        return Failure(RequestMismatch);
      }
      var items := handler.request.input;
      var isFirst := workId.None? || (handler.claimed && handler.first);
      if isFirst {
        if handler.request.hasProviderState || hash(items) != plan.value.firstInput {
          return Failure(RequestMismatch);
        }
      } else {
        if handler.workId != workId || !items.Items? || |items.items| <= firstLength
           || hash(Prefix(items, firstLength)) != plan.value.firstInput
           || (!handler.claimed && (|items.items| <= lastLength || hash(Prefix(items, lastLength)) != lastInput))
           || !handler.request.hasProviderState
        {
          return Failure(RequestMismatch);
        }
        for i := firstLength to |items.items|
          invariant forall j :: firstLength <= j < i ==> MayAdd(items.items[j])
        {
          if !MayAdd(items.items[i]) {
            return Failure(RequestMismatch);
          }
        }
      }
      if claim && !handler.claimed {
        if handler.workId.None? || handler.workId.value == "" {
          return Failure(RequestMismatch);
        }
        if isFirst {
          workId := handler.workId;
          firstLength := Length(items);
        }
        lastLength := Length(items);
        lastInput := hash(items);
        count := count + 1;
        handler.claimed := true;
        handler.first := isFirst;
      }
      return Success(());
    }
  }

  // ---------------------------------------------------------------- runs

  /** One claimed request: under which plan, with what work and what input. */
  datatype Claimed = Claimed(probeId: nat, plan: Plan, workId: string, arrival: nat, input: Input)

  datatype Event =
    | Control(who: string, plan: Option<Plan>, revoke: bool, at: Setting, freshId: nat, now: int)
    | Arrive(slot: nat, request: Request)
    | Bind(slot: nat, workId: Option<string>)
    | Check(slot: nat, now: int, claim: bool)

  /** The gateway: its probe, the requests it is handling, the identifiers used up so far, and the
      claims made. */
  datatype Gateway = Gateway(probe: Probe, handlers: map<nat, Handler>, usedIds: set<nat>, usedArrivals: set<nat>, claims: seq<Claimed>)

  const START := Gateway(IDLE, map[], {}, {}, [])

  /** Probe identifiers and arrivals are fresh. */
  predicate Possible(g: Gateway, e: Event) {
    match e
    case Control(_, _, _, _, freshId, _) => freshId !in g.usedIds
    case Arrive(_, request) => request.arrival !in g.usedArrivals
    case Bind(slot, _) => slot in g.handlers
    case Check(slot, _, _) => slot in g.handlers
  }

  function Step(hash: Hash, g: Gateway, e: Event): Gateway
    requires Possible(g, e)
  {
    match e
    case Control(who, plan, revoke, at, freshId, now) =>
      var r := Controlled(g.probe, who, plan, revoke, at, freshId, now);
      if r.Failure? then g else g.(probe := r.value, usedIds := g.usedIds + {freshId})
    case Arrive(slot, request) =>
      g.(handlers := g.handlers[slot := Handler(request, None, false, false)], usedArrivals := g.usedArrivals + {request.arrival})
    case Bind(slot, workId) =>
      g.(handlers := g.handlers[slot := g.handlers[slot].(workId := workId)])
    case Check(slot, now, claim) =>
      var h := g.handlers[slot];
      var r := Checked(hash, g.probe, h, now, claim);
      if r.Failure? then g
      else
        var made := if r.value.1.claimed && !h.claimed
                    then [Claimed(g.probe.probeId, g.probe.plan.value, h.workId.value, h.request.arrival, h.request.input)] else [];
        g.(probe := r.value.0, handlers := g.handlers[slot := r.value.1], claims := g.claims + made)
  }

  ghost predicate Runs(hash: Hash, from: Gateway, events: seq<Event>, to: Gateway)
    decreases |events|
  {
    if events == [] then from == to
    else Possible(from, events[0]) && Runs(hash, Step(hash, from, events[0]), events[1..], to)
  }
}
