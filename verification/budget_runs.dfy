/**
 Work budgets over whole runs: under one set of active plan versions, no sequence of
 reservations, settlements, unknown outcomes and sweeps takes a plan past its amount or its
 binding limit, and a request is bound to every applicable plan or to none.
 */
module BudgetRuns {
  import opened Wrappers
  import opened Pricing
  import opened WorkBudget

  datatype Op =
    | Reserve(request: Request, offer: Offer, scope: Option<(string, int)>, now: int, stale: set<string>)
    | Finalize(id: string, status: AttemptState, usage: Usage)
    | MarkUnknown(id: string)
    | Sweep(stale: set<string>)

  /** A request is reserved at the price of its own offer. */
  function Priced(op: Op): Request
    requires op.Reserve?
  {
    op.request.(reservedMicro := EstimateReservation(op.offer.route, op.offer.inputBound, op.offer.outputBound))
  }

  /** One operation; what is refused changes nothing. */
  function Apply(cfg: Config, l: Ledger, op: Op): Ledger {
    match op
    case Reserve(_, offer, scope, now, stale) =>
      var outcome := Admit(cfg, l, Priced(op), offer, scope, now, stale);
      if outcome.Success? then outcome.value else l
    case Finalize(id, status, u) =>
      var settled := Settle(l, id, status, u);
      if settled.Some? then settled.value else l
    case MarkUnknown(id) =>
      var marked := Unknown(l, id);
      if marked.Some? then marked.value.0 else l
    case Sweep(stale) => l.(attempts := SweepAttempts(l.attempts, stale))
  }

  function Play(cfg: Config, l: Ledger, ops: seq<Op>): Ledger
    decreases |ops|
  {
    if ops == [] then l else Play(cfg, Apply(cfg, l, ops[0]), ops[1..])
  }

  /** The usage stays within the bounds the request was admitted under. */
  predicate Covered(offer: Offer, u: Usage) {
    && BilledInput(offer.route.anthropic, u) <= Natural(offer.inputBound)
    && Natural(u.output) <= Natural(offer.outputBound)
  }

  /** Every settlement of the run reports a covered usage. */
  predicate AllCovered(cfg: Config, l: Ledger, ops: seq<Op>)
    decreases |ops|
  {
    ops == [] ||
    (&& (ops[0].Finalize? && ops[0].id in l.attempts ==> Covered(l.attempts[ops[0].id].offer, ops[0].usage))
     && AllCovered(cfg, Apply(cfg, l, ops[0]), ops[1..]))
  }

  function Hold(offer: Offer): nat {
    Natural(EstimateReservation(offer.route, offer.inputBound, offer.outputBound)) * NANO_PER_MICRO
  }

  predicate AttemptOk(a: Attempt) {
    Terminal(a.state) ==> a.cost.Some? && 0 <= a.cost.value && a.cost.value * NANO_PER_MICRO <= Hold(a.offer)
  }

  /** Bindings carry their attempt's hold, and a settlement never exceeds it. */
  ghost predicate Backed(l: Ledger) {
    && (forall i :: 0 <= i < |l.bindings| ==>
          l.bindings[i].attempt in l.attempts && l.bindings[i].reserved == Hold(l.attempts[l.bindings[i].attempt].offer))
    && (forall a :: a in l.attempts ==> AttemptOk(l.attempts[a]))
  }

  /** The plan's consumed sum is known and within its amount, its bindings within the limit. */
  predicate WithinPlan(l: Ledger, p: Plan) {
    && Spent(l.bindings, l.attempts, p).Some? && Spent(l.bindings, l.attempts, p).value <= p.amount
    && CountBindings(l.bindings, l.attempts, p) <= MAX_BINDINGS
  }

  ghost predicate LedgerOk(cfg: Config, l: Ledger) {
    Backed(l) && forall p :: p in cfg.plans ==> WithinPlan(l, p)
  }

  // ---------------------------------------------------------------- cheaper attempts, same bindings

  lemma {:induction false} SpentMonotone(bindings: seq<Binding>, before: map<string, Attempt>, after: map<string, Attempt>, p: Plan)
    requires forall i :: 0 <= i < |bindings| ==>
      && bindings[i].attempt in before && bindings[i].attempt in after
      && Charge(before, bindings[i]).Some? && Charge(after, bindings[i]).Some?
      && Charge(after, bindings[i]).value <= Charge(before, bindings[i]).value
    requires Spent(bindings, before, p).Some?
    ensures Spent(bindings, after, p).Some? && Spent(bindings, after, p).value <= Spent(bindings, before, p).value
    ensures CountBindings(bindings, after, p) == CountBindings(bindings, before, p)
    decreases |bindings|
  {
    if bindings != [] {
      SpentMonotone(bindings[..|bindings| - 1], before, after, p);
    }
  }

  /** Attempts may open, settle within their hold or become unknown. */
  ghost predicate Progress(l: Ledger, after: map<string, Attempt>) {
    && (forall a :: a in after ==> AttemptOk(after[a]))
    && (forall a :: a in l.attempts ==>
          && a in after && after[a].offer == l.attempts[a].offer
          && (after[a] == l.attempts[a] || l.attempts[a].state.Pending?))
  }

  lemma ProgressKeeps(cfg: Config, l: Ledger, after: map<string, Attempt>)
    requires LedgerOk(cfg, l) && Progress(l, after)
    ensures LedgerOk(cfg, l.(attempts := after))
  {
    forall p | p in cfg.plans ensures WithinPlan(l.(attempts := after), p) {
      SpentMonotone(l.bindings, l.attempts, after, p);
    }
  }

  lemma SettleProgress(cfg: Config, l: Ledger, id: string, status: AttemptState, u: Usage)
    requires LedgerOk(cfg, l) && Settle(l, id, status, u).Some? && Covered(l.attempts[id].offer, u)
    ensures Progress(l, Settle(l, id, status, u).value.attempts)
  {
    var offer := l.attempts[id].offer;
    ReservationDominates(offer.route, offer.inputBound, offer.outputBound, u);
    assert EstimateCost(offer.route, u) >= 0;
  }

  // ---------------------------------------------------------------- new bindings

  lemma SpentSnoc(bindings: seq<Binding>, attempts: map<string, Attempt>, b: Binding, p: Plan)
    requires Spent(bindings, attempts, p).Some? && b.attempt in attempts && Charge(attempts, b).Some?
    ensures CountBindings(bindings + [b], attempts, p) == CountBindings(bindings, attempts, p) + (if CountsFor(attempts, b, p) then 1 else 0)
    ensures Spent(bindings + [b], attempts, p)
         == Some(Spent(bindings, attempts, p).value + if CountsFor(attempts, b, p) then Charge(attempts, b).value else 0)
  {
    assert (bindings + [b])[..|bindings|] == bindings;
  }

  /** A binding just made for `q` is open and counts for `q` alone. */
  lemma NewBinding(l: Ledger, r: Request, q: Plan, p: Plan)
    requires r.attempt in l.attempts && l.attempts[r.attempt].state.Pending?
    requires q == p || q.id != p.id
    ensures Charge(l.attempts, BindingFor(r, q)) == Some(Reserved(r))
    ensures CountsFor(l.attempts, BindingFor(r, q), p) <==> q == p
  {
  }

  lemma LastPlan(plans: seq<Plan>, p: Plan)
    requires plans != [] && DistinctIds(plans)
    ensures DistinctIds(plans[..|plans| - 1])
    ensures p in plans <==> p in plans[..|plans| - 1] || p == plans[|plans| - 1]
    ensures p == plans[|plans| - 1] ==> p !in plans[..|plans| - 1]
    ensures forall q :: q in plans[..|plans| - 1] ==> q in plans
  {
  }

  lemma BindingsSnoc(bindings: seq<Binding>, r: Request, plans: seq<Plan>)
    requires plans != []
    ensures bindings + BindingsFor(r, plans)
         == bindings + BindingsFor(r, plans[..|plans| - 1]) + [BindingFor(r, plans[|plans| - 1])]
  {
  }

  /** Binding a request once for a plan adds exactly its reservation to that plan. */
  lemma {:induction false} SpentWithBindings(l: Ledger, r: Request, plans: seq<Plan>, p: Plan)
    requires DistinctIds(plans) && Spent(l.bindings, l.attempts, p).Some?
    requires r.attempt in l.attempts && l.attempts[r.attempt].state.Pending?
    requires forall q :: q in plans ==> q == p || q.id != p.id
    ensures CountBindings(l.bindings + BindingsFor(r, plans), l.attempts, p) == CountBindings(l.bindings, l.attempts, p) + (if p in plans then 1 else 0)
    ensures Spent(l.bindings + BindingsFor(r, plans), l.attempts, p)
         == Some(Spent(l.bindings, l.attempts, p).value + if p in plans then Reserved(r) else 0)
    decreases |plans|
  {
    if plans == [] {
      assert l.bindings + [] == l.bindings;
    } else {
      var init, last := plans[..|plans| - 1], plans[|plans| - 1];
      LastPlan(plans, p);
      SpentWithBindings(l, r, init, p);
      NewBinding(l, r, last, p);
      BindingsSnoc(l.bindings, r, plans);
      SpentSnoc(l.bindings + BindingsFor(r, init), l.attempts, BindingFor(r, last), p);
    }
  }

  lemma OpenedProgress(cfg: Config, l: Ledger, id: string, offer: Offer, stale: set<string>)
    requires LedgerOk(cfg, l) && id !in l.attempts
    ensures Progress(l, Opened(l, id, offer, stale).attempts)
  {
  }

  lemma AgreementLeavesRoom(l: Ledger, r: Request, p: Plan)
    requires Agrees(l, r, p)
    ensures CountBindings(l.bindings, l.attempts, p) < MAX_BINDINGS
    ensures Spent(l.bindings, l.attempts, p).Some? && Spent(l.bindings, l.attempts, p).value + Reserved(r) <= p.amount
  {
  }

  lemma AdmitKeepsPlan(cfg: Config, l: Ledger, op: Op, plans: seq<Plan>, p: Plan)
    requires op.Reserve? && DistinctIds(cfg.plans) && DistinctIds(plans) && p in cfg.plans
    requires forall q :: q in plans ==> q in cfg.plans
    requires WithinPlan(l, p) && Priced(op).attempt in l.attempts && l.attempts[Priced(op).attempt].state.Pending?
    requires p in plans ==> Agrees(l, Priced(op), p)
    ensures WithinPlan(l.(bindings := l.bindings + BindingsFor(Priced(op), plans)), p)
  {
    SpentWithBindings(l, Priced(op), plans, p);
    if p in plans {
      AgreementLeavesRoom(l, Priced(op), p);
    }
  }

  lemma ApplicableStored(cfg: Config, scope: Option<(string, int)>, now: int)
    requires WellKeyed(cfg.scopes) && Applicable(cfg, scope, now).Success?
    ensures forall q :: q in Applicable(cfg, scope, now).value ==> q in cfg.plans
  {
    if scope.Some? {
      var chain := ScopeChainOf(cfg.scopes, scope.value.0, scope.value.1).value;
      ScopeChainExact(cfg.scopes, scope.value.0, scope.value.1, chain);
      ChainDistinct(cfg.scopes, scope.value.0, scope.value.1, chain);
      PlansForChainExact(cfg.plans, chain, now);
    }
  }

  lemma ReserveKeeps(cfg: Config, l: Ledger, op: Op)
    requires DistinctIds(cfg.plans) && WellKeyed(cfg.scopes)
    requires LedgerOk(cfg, l) && op.Reserve?
    requires Admit(cfg, l, Priced(op), op.offer, op.scope, op.now, op.stale).Success?
    ensures LedgerOk(cfg, Apply(cfg, l, op))
  {
    var r := Priced(op);
    var opened' := Opened(l, r.attempt, op.offer, op.stale);
    OpenedProgress(cfg, l, r.attempt, op.offer, op.stale);
    ProgressKeeps(cfg, l, opened'.attempts);
    var plans := Applicable(cfg, op.scope, op.now).value;
    ApplicableDistinct(cfg, op.scope, op.now);
    ApplicableStored(cfg, op.scope, op.now);
    FirstObjectionExact(opened', r, plans);
    var after := opened'.(bindings := opened'.bindings + BindingsFor(r, plans));
    forall p | p in cfg.plans ensures WithinPlan(after, p) {
      assert p in plans ==> Agrees(opened', r, p);
      AdmitKeepsPlan(cfg, opened', op, plans, p);
    }
    BindingsForAt(r, plans);
    assert Backed(after);
  }

  lemma ApplyKeeps(cfg: Config, l: Ledger, op: Op)
    requires DistinctIds(cfg.plans) && WellKeyed(cfg.scopes) && LedgerOk(cfg, l)
    requires op.Finalize? && op.id in l.attempts ==> Covered(l.attempts[op.id].offer, op.usage)
    ensures LedgerOk(cfg, Apply(cfg, l, op))
  {
    match op
    case Reserve(_, offer, scope, now, stale) =>
      if Admit(cfg, l, Priced(op), offer, scope, now, stale).Success? {
        ReserveKeeps(cfg, l, op);
      }
    case Finalize(id, status, u) =>
      if Settle(l, id, status, u).Some? {
        SettleProgress(cfg, l, id, status, u);
        ProgressKeeps(cfg, l, Settle(l, id, status, u).value.attempts);
      }
    case MarkUnknown(id) => ProgressKeeps(cfg, l, Apply(cfg, l, op).attempts);
    case Sweep(stale) => ProgressKeeps(cfg, l, SweepAttempts(l.attempts, stale));
  }

  lemma {:induction false} PlayKeeps(cfg: Config, l: Ledger, ops: seq<Op>)
    requires DistinctIds(cfg.plans) && WellKeyed(cfg.scopes) && LedgerOk(cfg, l)
    requires AllCovered(cfg, l, ops)
    ensures LedgerOk(cfg, Play(cfg, l, ops))
    decreases |ops|
  {
    if ops != [] {
      ApplyKeeps(cfg, l, ops[0]);
      PlayKeeps(cfg, Apply(cfg, l, ops[0]), ops[1..]);
    }
  }

  /** The budget ceiling: after any run of reservations, settlements of covered usage, unknown
      marks and sweeps, every plan's consumed sum is at most its amount and its window holds
      at most 10,000 bindings. */
  lemma BudgetCeiling(cfg: Config, ops: seq<Op>, p: Plan)
    requires DistinctIds(cfg.plans) && WellKeyed(cfg.scopes) && p in cfg.plans
    requires AllCovered(cfg, EMPTY, ops)
    ensures var l := Play(cfg, EMPTY, ops);
      && Spent(l.bindings, l.attempts, p).Some? && Spent(l.bindings, l.attempts, p).value <= p.amount
      && CountBindings(l.bindings, l.attempts, p) <= 10_000
  {
    PlayKeeps(cfg, EMPTY, ops);
  }

  // ---------------------------------------------------------------- all plans or none

  /** The verdict is unanimous: no denial exactly when the estimate is valid and every plan
      has a bounded request it agrees to. */
  lemma VerdictUnanimous(l: Ledger, r: Request, plans: seq<Plan>)
    ensures Verdict(l, r, true, plans).None? <==>
      && 0 <= r.reservedMicro && Reserved(r) < AMOUNT_LIMIT
      && (forall p :: p in plans ==> r.inputBounded && r.outputBounded && Agrees(l, r, p))
  {
    FirstObjectionExact(l, r, plans);
    if plans != [] {
      assert plans[0] in plans;
    }
    assert forall i :: 0 <= i < |plans| ==> plans[i] in plans;
  }

  /** A request whose attribution names a valid chain is admitted exactly when its estimate is
      valid and bounded and every effective plan on the chain agrees; it is then bound to each
      of those plans, and to nothing else. */
  lemma EveryPlanAgrees(cfg: Config, l: Ledger, r: Request, offer: Offer, id: string, version: int, now: int, stale: set<string>,
                        chain: seq<Scope>)
    requires DistinctIds(cfg.plans) && WellKeyed(cfg.scopes) && ValidChain(cfg.scopes, id, version, chain)
    ensures Admit(cfg, l, r, offer, Some((id, version)), now, stale).Success? <==>
      && r.attempt !in l.attempts && 0 <= r.reservedMicro && Reserved(r) < AMOUNT_LIMIT
      && (forall p :: p in cfg.plans && OnChain(p, chain, now) ==>
            r.inputBounded && r.outputBounded && Agrees(Opened(l, r.attempt, offer, stale), r, p))
  {
    ChainPlans(cfg, id, version, now, chain);
    VerdictUnanimous(Opened(l, r.attempt, offer, stale), r, PlansForChain(cfg.plans, chain, now));
  }

  lemma ChainPlans(cfg: Config, id: string, version: int, now: int, chain: seq<Scope>)
    requires DistinctIds(cfg.plans) && WellKeyed(cfg.scopes) && ValidChain(cfg.scopes, id, version, chain)
    ensures Applicable(cfg, Some((id, version)), now) == Success(PlansForChain(cfg.plans, chain, now))
    ensures forall p :: p in PlansForChain(cfg.plans, chain, now) <==> p in cfg.plans && OnChain(p, chain, now)
  {
    ScopeChainExact(cfg.scopes, id, version, chain);
    ChainDistinct(cfg.scopes, id, version, chain);
    PlansForChainExact(cfg.plans, chain, now);
  }

  lemma BoundToEveryPlan(cfg: Config, l: Ledger, r: Request, offer: Offer, id: string, version: int, now: int, stale: set<string>,
                         chain: seq<Scope>)
    requires DistinctIds(cfg.plans) && WellKeyed(cfg.scopes) && ValidChain(cfg.scopes, id, version, chain)
    requires Admit(cfg, l, r, offer, Some((id, version)), now, stale).Success?
    ensures var after := Admit(cfg, l, r, offer, Some((id, version)), now, stale).value;
      && l.bindings <= after.bindings
      && (forall b :: b in after.bindings[|l.bindings|..] <==>
            exists p :: p in cfg.plans && OnChain(p, chain, now) && b == BindingFor(r, p))
      && after.attempts == Opened(l, r.attempt, offer, stale).attempts
  {
    ChainPlans(cfg, id, version, now, chain);
    var plans := PlansForChain(cfg.plans, chain, now);
    BoundExactly(r, plans);
    assert (l.bindings + BindingsFor(r, plans))[|l.bindings|..] == BindingsFor(r, plans);
  }

  lemma BoundExactly(r: Request, plans: seq<Plan>)
    ensures forall b :: b in BindingsFor(r, plans) <==> exists p :: p in plans && b == BindingFor(r, p)
  {
    BindingsForAt(r, plans);
    forall p | p in plans ensures BindingFor(r, p) in BindingsFor(r, plans) {
      var i :| 0 <= i < |plans| && plans[i] == p;
      assert BindingsFor(r, plans)[i] == BindingFor(r, p);
    }
  }

  /** A request without a valid attribution is never admitted while any plan is in force. */
  lemma UnattributedRefused(cfg: Config, l: Ledger, r: Request, offer: Offer, scope: Option<(string, int)>, now: int,
                            stale: set<string>, p: Plan)
    requires WellKeyed(cfg.scopes) && p in cfg.plans && Effective(p, now)
    requires scope.Some? ==> forall chain :: !ValidChain(cfg.scopes, scope.value.0, scope.value.1, chain)
    ensures Admit(cfg, l, r, offer, scope, now, stale).Failure?
    ensures r.attempt !in l.attempts ==>
      Admit(cfg, l, r, offer, scope, now, stale).error.reason == AttributionInvalid
      && p.id in Admit(cfg, l, r, offer, scope, now, stale).error.plans
  {
    EffectivePlansExact(cfg.plans, now);
    if scope.Some? && ScopeChainOf(cfg.scopes, scope.value.0, scope.value.1).Success? {
      ScopeChainExact(cfg.scopes, scope.value.0, scope.value.1, ScopeChainOf(cfg.scopes, scope.value.0, scope.value.1).value);
    }
  }

  /** A request without attribution is admitted exactly when no plan is in force, whatever it costs. */
  lemma UnattributedExactly(cfg: Config, l: Ledger, r: Request, offer: Offer, now: int, stale: set<string>)
    requires r.attempt !in l.attempts
    ensures Admit(cfg, l, r, offer, None, now, stale).Success? <==> forall p :: p in cfg.plans ==> !Effective(p, now)
    ensures Admit(cfg, l, r, offer, None, now, stale).Success? ==>
      Admit(cfg, l, r, offer, None, now, stale).value == Opened(l, r.attempt, offer, stale)
  {
    EffectivePlansExact(cfg.plans, now);
    assert l.bindings + [] == l.bindings;
    var effective := EffectivePlans(cfg.plans, now);
    if effective != [] { assert effective[0] in effective; }
  }

  lemma {:induction false} EffectivePlansExact(plans: seq<Plan>, now: int)
    ensures forall p :: p in EffectivePlans(plans, now) <==> p in plans && Effective(p, now)
    decreases |plans|
  {
    if plans != [] {
      EffectivePlansExact(plans[1..], now);
      assert plans == [plans[0]] + plans[1..];
    }
  }

  /** Usage that keeps the provider rules is covered, so such runs meet the ceiling's premise. */
  lemma ProviderUsageCovered(offer: Offer, u: Usage)
    requires ProviderWithin(offer.route.anthropic, offer.inputBound, offer.outputBound, u)
    ensures Covered(offer, u)
  {
  }
}
