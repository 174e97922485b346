/**
 The work-budget ledger: reservations are bound to every active plan on the request's scope
 chain before egress, and settled, marked unknown or swept afterwards.

 Amounts are exact integers of 10^-9 USD: a plan amount has at most nine decimals, and a
 reservation or a settled cost in micro-USD is a multiple of a thousand of them.
 */
module WorkBudget {
  import opened Wrappers
  import opened Pricing

  const MAX_BINDINGS: nat := 10_000

  /** Reservation amounts have at most 18 integer digits of USD. */
  const AMOUNT_LIMIT: nat := 1_000_000_000_000_000_000_000_000_000

  const NANO_PER_MICRO: nat := 1000

  datatype Kind = Portfolio | Initiative | UseCase | OtherKind

  function Rank(kind: Kind): nat {
    match kind
    case Portfolio => 0
    case Initiative => 1
    case UseCase => 2
    case OtherKind => 3
  }

  /** The latest version of a work scope. */
  datatype Scope = Scope(id: string, version: int, active: bool, kind: Kind, parent: Option<string>, parentVersion: Option<int>)

  datatype Models = AnyModel | Only(models: set<string>) | Malformed

  /** An active plan version, as activated. */
  datatype Plan = Plan(
    id: string, version: int, scope: string, scopeVersion: int,
    windowStart: int, windowEnd: int, committedAt: int,
    currency: string, amount: nat, requestCap: Option<nat>, outputCap: Option<int>, models: Models)

  datatype AttemptState = Pending | OutcomeUnknown | Succeeded | RequestFailed | RateLimited

  /** The rate card and token bounds a request was admitted under. */
  datatype Offer = Offer(route: Route, inputBound: int, outputBound: int)

  /** An attempt's latest state, with the cost its usage event recorded. */
  datatype Attempt = Attempt(state: AttemptState, cost: Option<int>, offer: Offer)

  datatype Binding = Binding(attempt: string, plan: string, windowStart: int, windowEnd: int, currency: string, reserved: nat)

  /** What admission knows about one request. */
  datatype Request = Request(
    attempt: string, model: string, reservedMicro: int, outputTokens: int, currency: string,
    inputBounded: bool, outputBounded: bool, attributed: bool)

  datatype Reason =
    | RequestCostCeiling | UnsupportedCurrency | AttributionInvalid | ModelIntersection
    | OutputTokenCeiling | BudgetCeiling | EstimateInvalid | StaleScope | HierarchyInvalid | AttemptExists

  /** A refusal, with the plans it is audited against. */
  datatype Denial = Denial(reason: Reason, plans: set<string>)

  datatype Ledger = Ledger(bindings: seq<Binding>, attempts: map<string, Attempt>)

  // ---------------------------------------------------------------- the scope chain

  predicate Current(scopes: map<string, Scope>, s: Scope) {
    s.id in scopes && scopes[s.id] == s && s.active && !s.kind.OtherKind?
  }

  predicate Linked(upper: Scope, lower: Scope) {
    lower.parent == Some(upper.id) && lower.parentVersion == Some(upper.version) && Rank(upper.kind) < Rank(lower.kind)
  }

  /** A chain of current scopes from a root down to (id, version). */
  predicate Chain(scopes: map<string, Scope>, id: string, version: int, chain: seq<Scope>) {
    && chain != []
    && chain[|chain| - 1].id == id && chain[|chain| - 1].version == version
    && chain[0].parent.None? && chain[0].parentVersion.None?
    && (forall i :: 0 <= i < |chain| ==> Current(scopes, chain[i]))
    && (forall i :: 0 < i < |chain| ==> Linked(chain[i - 1], chain[i]))
  }

  /** The scope chain of an attributed use case: at most one scope of each kind. */
  predicate ValidChain(scopes: map<string, Scope>, id: string, version: int, chain: seq<Scope>) {
    Chain(scopes, id, version, chain) && |chain| <= 3 && chain[|chain| - 1].kind.UseCase?
  }

  /** Follow parents from (id, version) upwards for at most `steps` scopes, each of a smaller
      kind than `below`. */
  function Climb(scopes: map<string, Scope>, id: string, version: int, below: nat, steps: nat): Result<seq<Scope>, Reason>
    decreases steps
  {
    if steps == 0 then Failure(HierarchyInvalid)
    else if id !in scopes || scopes[id].version != version || !scopes[id].active then Failure(StaleScope)
    else
      var latest := scopes[id];
      if latest.kind.OtherKind? || Rank(latest.kind) >= below then Failure(HierarchyInvalid)
      else if latest.parent.None? then
        if latest.parentVersion.Some? then Failure(HierarchyInvalid) else Success([latest])
      else if latest.parentVersion.None? then Failure(HierarchyInvalid)
      else
        var upper := Climb(scopes, latest.parent.value, latest.parentVersion.value, Rank(latest.kind), steps - 1);
        if upper.Failure? then upper else Success(upper.value + [latest])
  }

  function ScopeChainOf(scopes: map<string, Scope>, id: string, version: int): Result<seq<Scope>, Reason> {
    var r := Climb(scopes, id, version, 4, 3);
    if r.Success? && (r.value == [] || !r.value[|r.value| - 1].kind.UseCase?) then Failure(HierarchyInvalid) else r
  }

  /** The climb as a loop that collects the chain on the way up. */
  method ScopeChain(scopes: map<string, Scope>, id: string, version: int) returns (r: Result<seq<Scope>, Reason>)
    ensures r == ScopeChainOf(scopes, id, version)
  {
    var scopeId, scopeVersion := id, version;
    var chain: seq<Scope> := [];
    ghost var whole := Climb(scopes, id, version, 4, 3);
    assert whole.Success? ==> whole.value + chain == whole.value;
    for step := 0 to 3
      invariant |chain| == step
      invariant var rest := Climb(scopes, scopeId, scopeVersion, if chain == [] then 4 else Rank(chain[0].kind), 3 - step);
        whole == if rest.Failure? then rest else Success(rest.value + chain)
    {
      if scopeId !in scopes || scopes[scopeId].version != scopeVersion || !scopes[scopeId].active {
        return Failure(StaleScope);
      }
      var latest := scopes[scopeId];
      if latest.kind.OtherKind? || (chain != [] && Rank(latest.kind) >= Rank(chain[0].kind)) {
        return Failure(HierarchyInvalid);
      }
      assert forall upper: seq<Scope> :: upper + [latest] + chain == upper + ([latest] + chain);
      chain := [latest] + chain;
      if latest.parent.None? {
        if latest.parentVersion.Some? {
          return Failure(HierarchyInvalid);
        }
        if !chain[|chain| - 1].kind.UseCase? {
          return Failure(HierarchyInvalid);
        }
        return Success(chain);
      }
      if latest.parentVersion.None? {
        return Failure(HierarchyInvalid);
      }
      scopeId, scopeVersion := latest.parent.value, latest.parentVersion.value;
    }
    return Failure(HierarchyInvalid);
  }

  lemma {:induction false} ClimbExact(scopes: map<string, Scope>, id: string, version: int, below: nat, steps: nat, chain: seq<Scope>)
    requires WellKeyed(scopes)
    ensures Climb(scopes, id, version, below, steps) == Success(chain) <==>
            Chain(scopes, id, version, chain) && |chain| <= steps && Rank(chain[|chain| - 1].kind) < below
    decreases steps
  {
    if steps > 0 && id in scopes && chain != [] {
      var latest := scopes[id];
      var upper := chain[..|chain| - 1];
      assert chain == upper + [chain[|chain| - 1]];
      if latest.parent.Some? && latest.parentVersion.Some? {
        ClimbExact(scopes, latest.parent.value, latest.parentVersion.value, Rank(latest.kind), steps - 1, upper);
        if Chain(scopes, id, version, chain) {
          assert chain[|chain| - 1] == latest;
          assert upper != [] && Linked(upper[|upper| - 1], latest);
        }
      } else if |chain| > 1 {
        assert Chain(scopes, id, version, chain) ==> Linked(chain[|chain| - 2], chain[|chain| - 1]);
      }
    }
  }

  /** The chain found is the only valid one, and a request is turned away exactly when its
      attribution has no valid chain. */
  lemma ScopeChainExact(scopes: map<string, Scope>, id: string, version: int, chain: seq<Scope>)
    requires WellKeyed(scopes)
    ensures ScopeChainOf(scopes, id, version) == Success(chain) <==> ValidChain(scopes, id, version, chain)
  {
    ClimbExact(scopes, id, version, 4, 3, chain);
    if chain != [] {
      assert Rank(chain[|chain| - 1].kind) < 4;
    }
  }

  // ---------------------------------------------------------------- applicable plans

  /** The plan's window, cut at its activation, contains `now`. */
  predicate Effective(p: Plan, now: int) {
    p.windowStart <= now && p.committedAt <= now && now < p.windowEnd
  }

  function PlansOf(plans: seq<Plan>, scope: Scope, now: int): seq<Plan> {
    if plans == [] then []
    else
      var rest := PlansOf(plans[1..], scope, now);
      if Effective(plans[0], now) && plans[0].scope == scope.id && plans[0].scopeVersion == scope.version
      then [plans[0]] + rest else rest
  }

  /** The effective plans on a chain, widest scope first and by plan id within one scope (the
      stored plans are in id order). */
  function PlansForChain(plans: seq<Plan>, chain: seq<Scope>, now: int): seq<Plan> {
    if chain == [] then [] else PlansOf(plans, chain[0], now) + PlansForChain(plans, chain[1..], now)
  }

  // ---------------------------------------------------------------- what a plan has spent

  /** The binding joins an attempt and counts against the plan's current window. */
  predicate CountsFor(attempts: map<string, Attempt>, b: Binding, p: Plan) {
    && b.attempt in attempts
    && b.plan == p.id && b.windowStart == p.windowStart && b.windowEnd == p.windowEnd && b.currency == p.currency
  }

  /** An open or unknown attempt costs its reservation, a finished one its recorded cost; None
      where the evidence is missing. */
  function Charge(attempts: map<string, Attempt>, b: Binding): Option<nat>
    requires b.attempt in attempts
  {
    var a := attempts[b.attempt];
    if a.state.Pending? || a.state.OutcomeUnknown? then Some(b.reserved)
    else if a.cost.Some? && a.cost.value >= 0 then Some(a.cost.value * NANO_PER_MICRO)
    else None
  }

  function CountBindings(bindings: seq<Binding>, attempts: map<string, Attempt>, p: Plan): nat {
    if bindings == [] then 0
    else CountBindings(bindings[..|bindings| - 1], attempts, p) + (if CountsFor(attempts, bindings[|bindings| - 1], p) then 1 else 0)
  }

  function Spent(bindings: seq<Binding>, attempts: map<string, Attempt>, p: Plan): Option<nat> {
    if bindings == [] then Some(0)
    else
      var b := bindings[|bindings| - 1];
      var before := Spent(bindings[..|bindings| - 1], attempts, p);
      if before.None? then None
      else if !CountsFor(attempts, b, p) then before
      else
        var charge := Charge(attempts, b);
        if charge.None? then None else Some(before.value + charge.value)
  }

  /** Accounting refuses to answer at the binding limit or on missing evidence. */
  function Consumed(l: Ledger, p: Plan): Option<nat> {
    if CountBindings(l.bindings, l.attempts, p) >= MAX_BINDINGS then None else Spent(l.bindings, l.attempts, p)
  }

  // ---------------------------------------------------------------- one request against its plans

  function Reserved(r: Request): nat {
    if r.reservedMicro < 0 then 0 else r.reservedMicro * NANO_PER_MICRO
  }

  function BindingFor(r: Request, p: Plan): Binding {
    Binding(r.attempt, p.id, p.windowStart, p.windowEnd, p.currency, Reserved(r))
  }

  /** Why a plan turns the request away, or None if it agrees. */
  function Objection(l: Ledger, r: Request, p: Plan): Option<Reason> {
    if p.currency != r.currency || r.currency != "USD" then Some(UnsupportedCurrency)
    else if p.models.Malformed? then Some(AttributionInvalid)
    else if p.models.Only? && r.model !in p.models.models then Some(ModelIntersection)
    else if p.outputCap.Some? && r.outputTokens > p.outputCap.value then Some(OutputTokenCeiling)
    else if p.requestCap.Some? && Reserved(r) > p.requestCap.value then Some(RequestCostCeiling)
    else
      var consumed := Consumed(l, p);
      if consumed.None? || consumed.value + Reserved(r) > p.amount then Some(BudgetCeiling)
      else if !r.attributed then Some(AttributionInvalid)
      else None
  }

  predicate Agrees(l: Ledger, r: Request, p: Plan) {
    Objection(l, r, p).None?
  }

  function BindingsFor(r: Request, plans: seq<Plan>): seq<Binding> {
    if plans == [] then [] else BindingsFor(r, plans[..|plans| - 1]) + [BindingFor(r, plans[|plans| - 1])]
  }

  function Ids(plans: seq<Plan>): set<string> {
    set p | p in plans :: p.id
  }

  predicate DistinctIds(plans: seq<Plan>) {
    forall i, j :: 0 <= i < j < |plans| ==> plans[i].id != plans[j].id
  }

  /** The first plan, in order, that objects. */
  function FirstObjection(l: Ledger, r: Request, plans: seq<Plan>): Option<Denial> {
    if plans == [] then None
    else
      var why := Objection(l, r, plans[0]);
      if why.Some? then Some(Denial(why.value, {plans[0].id})) else FirstObjection(l, r, plans[1..])
  }

  /** The verdict on a request against the plans on its chain; without a chain there is nothing to
      enforce. */
  function Verdict(l: Ledger, r: Request, chained: bool, plans: seq<Plan>): Option<Denial> {
    if !chained then None
    else if r.reservedMicro < 0 || Reserved(r) >= AMOUNT_LIMIT then Some(Denial(EstimateInvalid, {}))
    else if plans != [] && (!r.inputBounded || !r.outputBounded) then Some(Denial(RequestCostCeiling, Ids(plans)))
    else FirstObjection(l, r, plans)
  }

  lemma FirstObjectionExact(l: Ledger, r: Request, plans: seq<Plan>)
    ensures FirstObjection(l, r, plans).None? <==> forall i :: 0 <= i < |plans| ==> Agrees(l, r, plans[i])
  {
    if plans != [] {
      FirstObjectionExact(l, r, plans[1..]);
    }
  }

  // ---------------------------------------------------------------- transactions

  /** The active plan versions, in id order, and the latest scope versions. */
  datatype Config = Config(plans: seq<Plan>, scopes: map<string, Scope>)

  const EMPTY := Ledger([], map[])

  function EffectivePlans(plans: seq<Plan>, now: int): seq<Plan> {
    if plans == [] then []
    else (if Effective(plans[0], now) then [plans[0]] else []) + EffectivePlans(plans[1..], now)
  }

  /** Pending attempts among `stale` become unknown; nothing else changes. */
  function SweepAttempts(attempts: map<string, Attempt>, stale: set<string>): map<string, Attempt> {
    map a | a in attempts ::
      if a in stale && attempts[a].state.Pending? then attempts[a].(state := OutcomeUnknown) else attempts[a]
  }

  /** The ledger as the enforcement step sees it: stale attempts swept, the new one pending. */
  function Opened(l: Ledger, id: string, offer: Offer, stale: set<string>): Ledger {
    l.(attempts := SweepAttempts(l.attempts, stale)[id := Attempt(Pending, None, offer)])
  }

  /** The applicable plans of a request, or why its attribution is refused. */
  function Applicable(cfg: Config, scope: Option<(string, int)>, now: int): Result<seq<Plan>, Denial> {
    var effective := EffectivePlans(cfg.plans, now);
    if scope.None? then
      if effective != [] then Failure(Denial(AttributionInvalid, Ids(effective))) else Success([])
    else
      var chain := ScopeChainOf(cfg.scopes, scope.value.0, scope.value.1);
      if chain.Success? then Success(PlansForChain(cfg.plans, chain.value, now))
      else if effective != [] then Failure(Denial(AttributionInvalid, Ids(effective)))
      else Failure(Denial(chain.error, {}))
  }

  /** The whole reservation transaction. */
  function Admit(cfg: Config, l: Ledger, r: Request, offer: Offer, scope: Option<(string, int)>, now: int,
                 stale: set<string>): Result<Ledger, Denial> {
    if r.attempt in l.attempts then Failure(Denial(AttemptExists, {}))
    else
      var plans := Applicable(cfg, scope, now);
      if plans.Failure? then Failure(plans.error)
      else
        var opened' := Opened(l, r.attempt, offer, stale);
        var denial := Verdict(opened', r, scope.Some?, plans.value);
        if denial.Some? then Failure(denial.value)
        else Success(opened'.(bindings := l.bindings + BindingsFor(r, plans.value)))
  }

  predicate Terminal(state: AttemptState) {
    state.Succeeded? || state.RequestFailed? || state.RateLimited?
  }

  /** Finalize a pending attempt at the configured-rate cost of the reported usage. */
  function Settle(l: Ledger, id: string, status: AttemptState, u: Usage): Option<Ledger> {
    if !Terminal(status) || id !in l.attempts || !l.attempts[id].state.Pending? then None
    else Some(l.(attempts := l.attempts[id := l.attempts[id].(state := status,
                                             cost := Some(EstimateCost(l.attempts[id].offer.route, u)))]))
  }

  /** Mark a pending attempt unknown; false means it already was, None that it is terminal. */
  function Unknown(l: Ledger, id: string): Option<(Ledger, bool)> {
    if id !in l.attempts then None
    else if l.attempts[id].state.OutcomeUnknown? then Some((l, false))
    else if !l.attempts[id].state.Pending? then None
    else Some((l.(attempts := l.attempts[id := l.attempts[id].(state := OutcomeUnknown)]), true))
  }

  // ---------------------------------------------------------------- the ledger object

  class WorkBudgetLedger {
    const cfg: Config
    var bindings: seq<Binding>
    var attempts: map<string, Attempt>

    function State(): Ledger
      reads this
    {
      Ledger(bindings, attempts)
    }

    constructor (cfg: Config)
      ensures this.cfg == cfg && State() == EMPTY
    {
      this.cfg := cfg;
      bindings, attempts := [], map[];
    }

    /** Sum the rows of the plan's window; None when accounting is unavailable. */
    method ConsumedBy(p: Plan) returns (total: Option<nat>)
      ensures total == Consumed(State(), p)
    {
      var rows: seq<Binding> := [];
      for i := 0 to |bindings|
        invariant |rows| == CountBindings(bindings[..i], attempts, p)
        invariant Spent(rows, attempts, p) == Spent(bindings[..i], attempts, p)
        invariant forall k :: 0 <= k < |rows| ==> CountsFor(attempts, rows[k], p)
      {
        assert bindings[..i + 1][..i] == bindings[..i];
        if CountsFor(attempts, bindings[i], p) {
          assert (rows + [bindings[i]])[..|rows|] == rows;
          rows := rows + [bindings[i]];
        }
      }
      assert bindings[..|bindings|] == bindings;
      if |rows| >= MAX_BINDINGS {
        return None;
      }
      var sum: nat := 0;
      for i := 0 to |rows|
        invariant Spent(rows[..i], attempts, p) == Some(sum)
      {
        assert rows[..i + 1][..i] == rows[..i];
        var charge := Charge(attempts, rows[i]);
        if charge.None? {
          MissingEvidence(rows, attempts, p, i);
          return None;
        }
        sum := sum + charge.value;
      }
      assert rows[..|rows|] == rows;
      return Some(sum);
    }

    /** Check every plan in turn and bind each as soon as it agrees.  A refusal leaves the
        bindings of the plans before it for the caller's rollback. */
    method EnforceAndBind(r: Request, chained: bool, plans: seq<Plan>) returns (denial: Option<Denial>)
      requires DistinctIds(plans) && (!chained ==> plans == [])
      modifies this`bindings
      ensures denial == Verdict(old(State()), r, chained, plans)
      ensures denial.None? ==> bindings == old(bindings) + BindingsFor(r, plans)
    {
      if !chained {
        return None;
      }
      if r.reservedMicro < 0 || Reserved(r) >= AMOUNT_LIMIT {
        return Some(Denial(EstimateInvalid, {}));
      }
      if plans != [] && (!r.inputBounded || !r.outputBounded) {
        return Some(Denial(RequestCostCeiling, Ids(plans)));
      }
      ghost var before := State();
      for i := 0 to |plans|
        invariant attempts == before.attempts
        invariant bindings == before.bindings + BindingsFor(r, plans[..i])
        invariant FirstObjection(before, r, plans) == FirstObjection(before, r, plans[i..])
      {
        var p := plans[i];
        assert plans[i..][1..] == plans[i + 1..] && plans[..i + 1][..i] == plans[..i];
        ObjectionStable(before, r, plans[..i], p);
        assert State() == before.(bindings := before.bindings + BindingsFor(r, plans[..i]));
        if p.currency != r.currency || r.currency != "USD" {
          return Some(Denial(UnsupportedCurrency, {p.id}));
        }
        if p.models.Malformed? {
          return Some(Denial(AttributionInvalid, {p.id}));
        }
        if p.models.Only? && r.model !in p.models.models {
          return Some(Denial(ModelIntersection, {p.id}));
        }
        if p.outputCap.Some? && r.outputTokens > p.outputCap.value {
          return Some(Denial(OutputTokenCeiling, {p.id}));
        }
        if p.requestCap.Some? && Reserved(r) > p.requestCap.value {
          return Some(Denial(RequestCostCeiling, {p.id}));
        }
        var consumed := ConsumedBy(p);
        if consumed.None? || consumed.value + Reserved(r) > p.amount {
          return Some(Denial(BudgetCeiling, {p.id}));
        }
        if !r.attributed {
          return Some(Denial(AttributionInvalid, {p.id}));
        }
        bindings := bindings + [BindingFor(r, p)];
      }
      assert plans[..|plans|] == plans;
      return None;
    }

    /** One reservation transaction: a refusal rolls every write back. */
    method Reserve(r: Request, offer: Offer, scope: Option<(string, int)>, now: int, stale: set<string>)
      returns (denial: Option<Denial>)
      requires DistinctIds(cfg.plans) && WellKeyed(cfg.scopes)
      modifies this
      ensures var outcome := Admit(cfg, old(State()), r, offer, scope, now, stale);
        if outcome.Success? then denial.None? && State() == outcome.value
        else denial == Some(outcome.error) && State() == old(State())
    {
      if r.attempt in attempts {
        return Some(Denial(AttemptExists, {}));
      }
      var savedBindings, savedAttempts := bindings, attempts;
      attempts := SweepAttempts(attempts, stale)[r.attempt := Attempt(Pending, None, offer)];
      var plans := Applicable(cfg, scope, now);
      if plans.Failure? {
        bindings, attempts := savedBindings, savedAttempts;
        return Some(plans.error);
      }
      ApplicableDistinct(cfg, scope, now);
      denial := EnforceAndBind(r, scope.Some?, plans.value);
      if denial.Some? {
        bindings, attempts := savedBindings, savedAttempts;
      }
    }

    method Finalize(id: string, status: AttemptState, u: Usage) returns (ok: bool)
      modifies this`attempts
      ensures var settled := Settle(old(State()), id, status, u);
        ok == settled.Some? && State() == if ok then settled.value else old(State())
    {
      ok := Terminal(status) && id in attempts && attempts[id].state.Pending?;
      if ok {
        attempts := attempts[id := attempts[id].(state := status, cost := Some(EstimateCost(attempts[id].offer.route, u)))];
      }
    }

    method MarkUnknown(id: string) returns (r: Option<bool>)
      modifies this`attempts
      ensures var marked := Unknown(old(State()), id);
        if marked.Some? then r == Some(marked.value.1) && State() == marked.value.0
        else r.None? && State() == old(State())
    {
      if id !in attempts {
        return None;
      }
      if attempts[id].state.OutcomeUnknown? {
        return Some(false);
      }
      if !attempts[id].state.Pending? {
        return None;
      }
      attempts := attempts[id := attempts[id].(state := OutcomeUnknown)];
      return Some(true);
    }

    method Sweep(stale: set<string>)
      modifies this`attempts
      ensures State() == old(State()).(attempts := SweepAttempts(old(attempts), stale))
    {
      attempts := SweepAttempts(attempts, stale);
    }
  }

  // ---------------------------------------------------------------- lemmas of the loops

  /** Missing evidence in one row spoils the whole sum. */
  lemma {:induction false} MissingEvidence(rows: seq<Binding>, attempts: map<string, Attempt>, p: Plan, i: nat)
    requires i < |rows| && Spent(rows[..i + 1], attempts, p).None?
    ensures Spent(rows, attempts, p).None?
    decreases |rows| - i
  {
    if i + 1 == |rows| {
      assert rows[..i + 1] == rows;
    } else {
      assert rows[..i + 2][..i + 1] == rows[..i + 1];
      MissingEvidence(rows, attempts, p, i + 1);
    }
  }

  /** Bindings of other plans do not count. */
  lemma {:induction false} OtherBindings(l: Ledger, more: seq<Binding>, p: Plan)
    requires forall i :: 0 <= i < |more| ==> !CountsFor(l.attempts, more[i], p)
    ensures CountBindings(l.bindings + more, l.attempts, p) == CountBindings(l.bindings, l.attempts, p)
    ensures Spent(l.bindings + more, l.attempts, p) == Spent(l.bindings, l.attempts, p)
    decreases |more|
  {
    if more == [] {
      assert l.bindings + more == l.bindings;
    } else {
      var init := more[..|more| - 1];
      assert (l.bindings + more)[..|l.bindings + more| - 1] == l.bindings + init;
      OtherBindings(l, init, p);
    }
  }

  lemma {:induction false} BindingsForAt(r: Request, plans: seq<Plan>)
    ensures |BindingsFor(r, plans)| == |plans|
    ensures forall i :: 0 <= i < |plans| ==> BindingsFor(r, plans)[i] == BindingFor(r, plans[i])
    decreases |plans|
  {
    if plans != [] {
      BindingsForAt(r, plans[..|plans| - 1]);
    }
  }

  /** What was bound for earlier plans of the same request does not sway a later plan. */
  lemma ObjectionStable(l: Ledger, r: Request, earlier: seq<Plan>, p: Plan)
    requires forall i :: 0 <= i < |earlier| ==> earlier[i].id != p.id
    ensures Objection(l.(bindings := l.bindings + BindingsFor(r, earlier)), r, p) == Objection(l, r, p)
  {
    BindingsForAt(r, earlier);
    OtherBindings(l, BindingsFor(r, earlier), p);
  }

  /** Plans picked for a chain come from the stored plans, each at most once. */
  lemma {:induction false} PlansOfSubset(plans: seq<Plan>, scope: Scope, now: int)
    ensures forall p :: p in PlansOf(plans, scope, now) <==>
      p in plans && Effective(p, now) && p.scope == scope.id && p.scopeVersion == scope.version
    ensures DistinctIds(plans) ==> DistinctIds(PlansOf(plans, scope, now))
    decreases |plans|
  {
    if plans != [] {
      PlansOfSubset(plans[1..], scope, now);
      assert plans == [plans[0]] + plans[1..];
      var rest := PlansOf(plans[1..], scope, now);
      if DistinctIds(plans) {
        forall i | 0 <= i < |rest| ensures rest[i].id != plans[0].id {
          assert rest[i] in plans[1..];
        }
      }
    }
  }

  predicate OnChain(p: Plan, chain: seq<Scope>, now: int) {
    Effective(p, now) && exists i :: 0 <= i < |chain| && p.scope == chain[i].id && p.scopeVersion == chain[i].version
  }

  predicate DistinctScopes(chain: seq<Scope>) {
    forall i, j :: 0 <= i < j < |chain| ==> chain[i].id != chain[j].id
  }

  /** Exactly the effective plans on the chain apply, each once. */
  lemma {:induction false} PlansForChainExact(plans: seq<Plan>, chain: seq<Scope>, now: int)
    requires DistinctScopes(chain)
    ensures forall p :: p in PlansForChain(plans, chain, now) <==> p in plans && OnChain(p, chain, now)
    ensures DistinctIds(plans) ==> DistinctIds(PlansForChain(plans, chain, now))
    decreases |chain|
  {
    if chain != [] {
      var first, rest := PlansOf(plans, chain[0], now), PlansForChain(plans, chain[1..], now);
      PlansOfSubset(plans, chain[0], now);
      PlansForChainExact(plans, chain[1..], now);
      forall p ensures OnChain(p, chain, now) <==>
        (Effective(p, now) && p.scope == chain[0].id && p.scopeVersion == chain[0].version) || OnChain(p, chain[1..], now)
      {
        assert chain == [chain[0]] + chain[1..];
        if OnChain(p, chain[1..], now) {
          var i :| 0 <= i < |chain[1..]| && p.scope == chain[1..][i].id && p.scopeVersion == chain[1..][i].version;
          assert chain[i + 1] == chain[1..][i];
        }
        if OnChain(p, chain, now) {
          var i :| 0 <= i < |chain| && p.scope == chain[i].id && p.scopeVersion == chain[i].version;
          assert i > 0 ==> chain[1..][i - 1] == chain[i];
        }
      }
      if DistinctIds(plans) {
        forall i, j | 0 <= i < |first| && 0 <= j < |rest| ensures first[i].id != rest[j].id {
          assert first[i] in first && rest[j] in rest;
        }
      }
    }
  }

  /** A chain never meets a scope twice: its kinds grow. */
  lemma ChainDistinct(scopes: map<string, Scope>, id: string, version: int, chain: seq<Scope>)
    requires Chain(scopes, id, version, chain)
    ensures DistinctScopes(chain)
  {
    forall i, j | 0 <= i < j < |chain| ensures chain[i].id != chain[j].id {
      RanksGrow(chain, i, j);
      assert Current(scopes, chain[i]) && Current(scopes, chain[j]);
    }
  }

  lemma {:induction false} RanksGrow(chain: seq<Scope>, i: nat, j: nat)
    requires forall k :: 0 < k < |chain| ==> Linked(chain[k - 1], chain[k])
    requires i < j < |chain|
    ensures Rank(chain[i].kind) < Rank(chain[j].kind)
    decreases j
  {
    assert Linked(chain[j - 1], chain[j]);
    if i < j - 1 {
      RanksGrow(chain, i, j - 1);
    }
  }

  lemma ApplicableDistinct(cfg: Config, scope: Option<(string, int)>, now: int)
    requires DistinctIds(cfg.plans) && WellKeyed(cfg.scopes) && Applicable(cfg, scope, now).Success?
    ensures DistinctIds(Applicable(cfg, scope, now).value)
  {
    if scope.Some? {
      var chain := ScopeChainOf(cfg.scopes, scope.value.0, scope.value.1).value;
      ScopeChainExact(cfg.scopes, scope.value.0, scope.value.1, chain);
      ChainDistinct(cfg.scopes, scope.value.0, scope.value.1, chain);
      PlansForChainExact(cfg.plans, chain, now);
    }
  }

  predicate WellKeyed(scopes: map<string, Scope>) {
    forall k :: k in scopes ==> scopes[k].id == k
  }
}
