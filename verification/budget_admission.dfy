/**
 What a plan permits, stated over the rows of the ledger alone: which requests are admitted after
 any run, which plan and reason a refusal names, and what a settlement gives back.
 */
module BudgetAdmission {
  import opened Wrappers
  import opened Pricing
  import opened WorkBudget
  import opened BudgetRuns

  // ---------------------------------------------------------------- the rows of a plan's window

  /** The row's attempt is on the ledger and the row was bound to the plan in its window. */
  predicate InWindow(l: Ledger, b: Binding, p: Plan) {
    b.attempt in l.attempts && (b.plan, b.windowStart, b.windowEnd, b.currency) == (p.id, p.windowStart, p.windowEnd, p.currency)
  }

  function Rows(l: Ledger, p: Plan): set<nat> {
    set i: nat | i < |l.bindings| && InWindow(l, l.bindings[i], p)
  }

  /** The attempt's outcome is not known yet. */
  predicate IsOpen(a: Attempt) {
    a.state == Pending || a.state == OutcomeUnknown
  }

  /** What a row costs can be told: its reservation while the attempt is open, the recorded cost after. */
  predicate Evident(l: Ledger, b: Binding)
    requires b.attempt in l.attempts
  {
    var a := l.attempts[b.attempt];
    IsOpen(a) || (a.cost.Some? && a.cost.value >= 0)
  }

  function RowCost(l: Ledger, b: Binding): nat
    requires b.attempt in l.attempts && Evident(l, b)
  {
    var a := l.attempts[b.attempt];
    if IsOpen(a) then b.reserved else a.cost.value * 1000
  }

  predicate AllEvident(l: Ledger, p: Plan) {
    forall i :: 0 <= i < |l.bindings| && InWindow(l, l.bindings[i], p) ==> Evident(l, l.bindings[i])
  }

  /** The sum over the plan's rows from row `i` on. */
  function SumFrom(l: Ledger, p: Plan, i: nat): nat
    requires i <= |l.bindings| && AllEvident(l, p)
    decreases |l.bindings| - i
  {
    if i == |l.bindings| then 0
    else (if InWindow(l, l.bindings[i], p) then RowCost(l, l.bindings[i]) else 0) + SumFrom(l, p, i + 1)
  }

  lemma {:induction false} CountIsRows(l: Ledger, p: Plan, n: nat)
    requires n <= |l.bindings|
    ensures CountBindings(l.bindings[..n], l.attempts, p) == |set i: nat | i < n && InWindow(l, l.bindings[i], p)|
    decreases n
  {
    var rows := set i: nat | i < n && InWindow(l, l.bindings[i], p);
    if n == 0 {
      assert rows == {};
    } else {
      CountIsRows(l, p, n - 1);
      var before := set i: nat | i < n - 1 && InWindow(l, l.bindings[i], p);
      assert l.bindings[..n][..n - 1] == l.bindings[..n - 1];
      assert rows == if InWindow(l, l.bindings[n - 1], p) then before + {n - 1} else before;
    }
  }

  /** The first `n` rows are evident, and their sum and the sum of the rest make the whole. */
  lemma {:induction false} SpentIsSum(l: Ledger, p: Plan, n: nat)
    requires n <= |l.bindings|
    ensures Spent(l.bindings[..n], l.attempts, p).Some? <==>
      forall i :: 0 <= i < n && InWindow(l, l.bindings[i], p) ==> Evident(l, l.bindings[i])
    ensures AllEvident(l, p) ==> Spent(l.bindings[..n], l.attempts, p).value + SumFrom(l, p, n) == SumFrom(l, p, 0)
    decreases n
  {
    if n > 0 {
      SpentIsSum(l, p, n - 1);
      assert l.bindings[..n][..n - 1] == l.bindings[..n - 1];
    }
  }

  /** The consumed sum is the sum of what the rows cost, if that can be told of every row. */
  lemma SpentExactly(l: Ledger, p: Plan)
    ensures Spent(l.bindings, l.attempts, p).Some? <==> AllEvident(l, p)
    ensures AllEvident(l, p) ==> Spent(l.bindings, l.attempts, p) == Some(SumFrom(l, p, 0))
    ensures CountBindings(l.bindings, l.attempts, p) == |Rows(l, p)|
  {
    SpentIsSum(l, p, |l.bindings|);
    CountIsRows(l, p, |l.bindings|);
    assert l.bindings[..|l.bindings|] == l.bindings;
  }

  // ---------------------------------------------------------------- what a plan permits

  predicate RightCurrency(r: Request, p: Plan) {
    p.currency == "USD" && r.currency == "USD"
  }

  predicate ModelListed(r: Request, p: Plan) {
    p.models == AnyModel || (p.models.Only? && r.model in p.models.models)
  }

  predicate TokensWithin(r: Request, p: Plan) {
    p.outputCap.Some? ==> r.outputTokens <= p.outputCap.value
  }

  predicate CostWithin(r: Request, p: Plan) {
    p.requestCap.Some? ==> r.reservedMicro * 1000 <= p.requestCap.value
  }

  /** Fewer than 10,000 rows count, each can be told, and the request fits beside them. */
  predicate RoomFor(l: Ledger, r: Request, p: Plan) {
    |Rows(l, p)| < 10_000 && AllEvident(l, p) && SumFrom(l, p, 0) + r.reservedMicro * 1000 <= p.amount
  }

  predicate Permits(l: Ledger, r: Request, p: Plan) {
    RightCurrency(r, p) && ModelListed(r, p) && TokensWithin(r, p) && CostWithin(r, p) && RoomFor(l, r, p) && r.attributed
  }

  /** The first of the plan's conditions that the request does not meet. */
  predicate Names(l: Ledger, r: Request, p: Plan, reason: Reason) {
    match reason
    case UnsupportedCurrency => !RightCurrency(r, p)
    case ModelIntersection => RightCurrency(r, p) && p.models.Only? && !ModelListed(r, p)
    case OutputTokenCeiling => RightCurrency(r, p) && ModelListed(r, p) && !TokensWithin(r, p)
    case RequestCostCeiling => RightCurrency(r, p) && ModelListed(r, p) && TokensWithin(r, p) && !CostWithin(r, p)
    case BudgetCeiling =>
      RightCurrency(r, p) && ModelListed(r, p) && TokensWithin(r, p) && CostWithin(r, p) && !RoomFor(l, r, p)
    case AttributionInvalid =>
      && RightCurrency(r, p)
      && (p.models.Malformed?
          || (ModelListed(r, p) && TokensWithin(r, p) && CostWithin(r, p) && RoomFor(l, r, p) && !r.attributed))
    case _ => false
  }

  lemma ObjectionIs(l: Ledger, r: Request, p: Plan)
    requires r.reservedMicro >= 0
    ensures Objection(l, r, p).None? <==> Permits(l, r, p)
    ensures Objection(l, r, p).Some? ==> Names(l, r, p, Objection(l, r, p).value)
  {
    SpentExactly(l, p);
  }

  // ---------------------------------------------------------------- the ledger when a request is checked

  /** Every row is of an attempt on the ledger. */
  predicate Joined(l: Ledger) {
    forall i :: 0 <= i < |l.bindings| ==> l.bindings[i].attempt in l.attempts
  }

  lemma ApplyKeepsJoined(cfg: Config, l: Ledger, op: Op)
    requires Joined(l)
    ensures Joined(Apply(cfg, l, op))
  {
    if op.Reserve? {
      var plans := Applicable(cfg, op.scope, op.now);
      if plans.Success? { BindingsForAt(Priced(op), plans.value); }
    }
  }

  lemma {:induction false} PlayKeepsJoined(cfg: Config, l: Ledger, ops: seq<Op>)
    requires Joined(l)
    ensures Joined(Play(cfg, l, ops))
    decreases |ops|
  {
    if ops != [] {
      ApplyKeepsJoined(cfg, l, ops[0]);
      PlayKeepsJoined(cfg, Apply(cfg, l, ops[0]), ops[1..]);
    }
  }

  lemma {:induction false} SameSum(l: Ledger, m: Ledger, p: Plan, i: nat)
    requires l.bindings == m.bindings && i <= |l.bindings| && AllEvident(l, p) && AllEvident(m, p)
    requires forall k :: 0 <= k < |l.bindings| ==>
      (InWindow(l, l.bindings[k], p) <==> InWindow(m, l.bindings[k], p))
      && (InWindow(l, l.bindings[k], p) ==> RowCost(l, l.bindings[k]) == RowCost(m, l.bindings[k]))
    ensures SumFrom(l, p, i) == SumFrom(m, p, i)
    decreases |l.bindings| - i
  {
    if i < |l.bindings| { SameSum(l, m, p, i + 1); }
  }

  /** Attempts that are swept, and a new one without rows, change no plan's sum. */
  lemma SameRoom(l: Ledger, id: string, offer: Offer, stale: set<string>, r: Request, p: Plan)
    requires Joined(l) && id !in l.attempts
    ensures RoomFor(Opened(l, id, offer, stale), r, p) <==> RoomFor(l, r, p)
  {
    var m := Opened(l, id, offer, stale);
    assert forall k :: 0 <= k < |l.bindings| ==> (InWindow(l, l.bindings[k], p) <==> InWindow(m, l.bindings[k], p));
    assert Rows(l, p) == Rows(m, p);
    assert forall k :: 0 <= k < |l.bindings| && InWindow(l, l.bindings[k], p) ==>
      (Evident(l, l.bindings[k]) <==> Evident(m, l.bindings[k]));
    if AllEvident(l, p) && AllEvident(m, p) { SameSum(l, m, p, 0); }
  }

  // ---------------------------------------------------------------- which requests are admitted

  /** The plan's window contains `now`, it was activated before, and its scope is on the chain. */
  predicate AppliesTo(p: Plan, chain: seq<Scope>, now: int) {
    && p.windowStart <= now < p.windowEnd && p.committedAt <= now
    && exists i :: 0 <= i < |chain| && (p.scope, p.scopeVersion) == (chain[i].id, chain[i].version)
  }

  predicate Estimable(r: Request) {
    0 <= r.reservedMicro < 1_000_000_000_000_000_000_000_000
  }

  lemma AppliesIsOnChain(p: Plan, chain: seq<Scope>, now: int)
    ensures AppliesTo(p, chain, now) <==> OnChain(p, chain, now)
  {
  }

  lemma EstimableIs(r: Request)
    ensures Estimable(r) <==> 0 <= r.reservedMicro && Reserved(r) < AMOUNT_LIMIT
  {
  }

  /** After any run, a request whose attribution names a valid chain is admitted if and only if its
      attempt is new, its estimate is one, and every plan that applies has both token bounds and
      permits it. */
  lemma AdmittedExactly(cfg: Config, ops: seq<Op>, r: Request, offer: Offer, id: string, version: int, now: int,
                        stale: set<string>, chain: seq<Scope>)
    requires DistinctIds(cfg.plans) && WellKeyed(cfg.scopes) && ValidChain(cfg.scopes, id, version, chain)
    ensures var l := Play(cfg, EMPTY, ops);
      Admit(cfg, l, r, offer, Some((id, version)), now, stale).Success? <==>
        && r.attempt !in l.attempts && Estimable(r)
        && forall p :: p in cfg.plans && AppliesTo(p, chain, now) ==> r.inputBounded && r.outputBounded && Permits(l, r, p)
  {
    var l := Play(cfg, EMPTY, ops);
    PlayKeepsJoined(cfg, EMPTY, ops);
    EveryPlanAgrees(cfg, l, r, offer, id, version, now, stale, chain);
    EstimableIs(r);
    if r.attempt !in l.attempts && r.reservedMicro >= 0 {
      forall p
        ensures AppliesTo(p, chain, now) <==> OnChain(p, chain, now)
        ensures Agrees(Opened(l, r.attempt, offer, stale), r, p) <==> Permits(l, r, p)
      {
        AppliesIsOnChain(p, chain, now);
        ObjectionIs(Opened(l, r.attempt, offer, stale), r, p);
        SameRoom(l, r.attempt, offer, stale, r, p);
      }
    }
  }

  // ---------------------------------------------------------------- what a refusal names

  /** `p` is stored before `q`. */
  predicate Earlier(plans: seq<Plan>, p: Plan, q: Plan) {
    exists i, j :: 0 <= i < j < |plans| && plans[i] == p && plans[j] == q
  }

  predicate ScopeAt(p: Plan, chain: seq<Scope>, a: int) {
    0 <= a < |chain| && p.scope == chain[a].id && p.scopeVersion == chain[a].version
  }

  /** `p` is asked before `q`: its scope is wider, or they share it and it is stored before. */
  predicate AskedBefore(plans: seq<Plan>, chain: seq<Scope>, p: Plan, q: Plan) {
    || (exists a, b :: 0 <= a < b < |chain| && ScopeAt(p, chain, a) && ScopeAt(q, chain, b))
    || (Earlier(plans, p, q) && exists a :: 0 <= a < |chain| && ScopeAt(p, chain, a) && ScopeAt(q, chain, a))
  }

  lemma EarlierLater(first: Plan, plans: seq<Plan>, p: Plan, q: Plan)
    ensures Earlier(plans, p, q) ==> Earlier([first] + plans, p, q)
    ensures q in plans ==> Earlier([first] + plans, first, q)
  {
    var all := [first] + plans;
    if Earlier(plans, p, q) {
      var i, j :| 0 <= i < j < |plans| && plans[i] == p && plans[j] == q;
      assert all[i + 1] == p && all[j + 1] == q;
    }
    if q in plans {
      var j :| 0 <= j < |plans| && plans[j] == q;
      assert all[0] == first && all[j + 1] == q;
    }
  }

  predicate StoredOrder(plans: seq<Plan>, l: seq<Plan>) {
    forall a, b :: 0 <= a < b < |l| ==> Earlier(plans, l[a], l[b])
  }

  predicate AskedOrder(plans: seq<Plan>, chain: seq<Scope>, l: seq<Plan>) {
    forall a, b :: 0 <= a < b < |l| ==> AskedBefore(plans, chain, l[a], l[b])
  }

  predicate OnScope(p: Plan, chain: seq<Scope>) {
    exists i :: 0 <= i < |chain| && ScopeAt(p, chain, i)
  }

  lemma {:induction false} PlansOfOrder(plans: seq<Plan>, scope: Scope, now: int)
    ensures StoredOrder(plans, PlansOf(plans, scope, now))
    decreases |plans|
  {
    if plans != [] {
      var l, rest := PlansOf(plans, scope, now), PlansOf(plans[1..], scope, now);
      PlansOfOrder(plans[1..], scope, now);
      PlansOfSubset(plans[1..], scope, now);
      assert plans == [plans[0]] + plans[1..];
      StoredOnTop(plans[0], plans[1..], plans, rest, l);
    }
  }

  lemma StoredOnTop(first: Plan, others: seq<Plan>, plans: seq<Plan>, rest: seq<Plan>, l: seq<Plan>)
    requires plans == [first] + others && StoredOrder(others, rest) && forall p :: p in rest ==> p in others
    requires l == rest || l == [first] + rest
    ensures StoredOrder(plans, l)
  {
    forall a, b | 0 <= a < b < |l|
      ensures Earlier(plans, l[a], l[b])
    {
      EarlierLater(first, others, l[a], l[b]);
      if l != rest {
        assert l[b] == rest[b - 1] && rest[b - 1] in rest && (a > 0 ==> l[a] == rest[a - 1]);
      }
    }
  }

  lemma OnScopeLater(chain: seq<Scope>, p: Plan)
    requires chain != [] && OnScope(p, chain[1..])
    ensures exists b :: 0 < b < |chain| && ScopeAt(p, chain, b)
  {
    var b :| 0 <= b < |chain[1..]| && ScopeAt(p, chain[1..], b);
    assert ScopeAt(p, chain, b + 1);
  }

  lemma AskedLater(plans: seq<Plan>, chain: seq<Scope>, p: Plan, q: Plan)
    requires chain != [] && AskedBefore(plans, chain[1..], p, q)
    ensures AskedBefore(plans, chain, p, q)
  {
    if a, b :| 0 <= a < b < |chain[1..]| && ScopeAt(p, chain[1..], a) && ScopeAt(q, chain[1..], b) {
      assert ScopeAt(p, chain, a + 1) && ScopeAt(q, chain, b + 1);
    } else {
      var a :| 0 <= a < |chain[1..]| && ScopeAt(p, chain[1..], a) && ScopeAt(q, chain[1..], a);
      assert ScopeAt(p, chain, a + 1) && ScopeAt(q, chain, a + 1);
    }
  }

  lemma {:induction false} ChainOrder(plans: seq<Plan>, chain: seq<Scope>, now: int)
    ensures AskedOrder(plans, chain, PlansForChain(plans, chain, now))
    ensures forall p :: p in PlansForChain(plans, chain, now) ==> OnScope(p, chain)
    decreases |chain|
  {
    if chain != [] {
      var first, rest := PlansOf(plans, chain[0], now), PlansForChain(plans, chain[1..], now);
      PlansOfOrder(plans, chain[0], now);
      PlansOfSubset(plans, chain[0], now);
      ChainOrder(plans, chain[1..], now);
      assert forall p :: p in first ==> ScopeAt(p, chain, 0);
      AskedOnTop(plans, chain, first, rest, first + rest);
    }
  }

  lemma AskedOnTop(plans: seq<Plan>, chain: seq<Scope>, first: seq<Plan>, rest: seq<Plan>, l: seq<Plan>)
    requires chain != [] && l == first + rest
    requires StoredOrder(plans, first) && forall p :: p in first ==> ScopeAt(p, chain, 0)
    requires AskedOrder(plans, chain[1..], rest) && forall p :: p in rest ==> OnScope(p, chain[1..])
    ensures AskedOrder(plans, chain, l) && forall p :: p in l ==> OnScope(p, chain)
  {
    forall p | p in l
      ensures OnScope(p, chain)
    {
      if p in first { assert ScopeAt(p, chain, 0); } else { OnScopeLater(chain, p); }
    }
    forall a, b | 0 <= a < b < |l|
      ensures AskedBefore(plans, chain, l[a], l[b])
    {
      if b < |first| {
        assert first[a] in first && first[b] in first && Earlier(plans, first[a], first[b]);
      } else if a < |first| {
        assert first[a] in first && rest[b - |first|] in rest;
        OnScopeLater(chain, rest[b - |first|]);
      } else {
        AskedLater(plans, chain, rest[a - |first|], rest[b - |first|]);
      }
    }
  }

  /** The order in which plans are asked has no two plans each before the other. */
  lemma OrderIsStrict(plans: seq<Plan>, chain: seq<Scope>, p: Plan, q: Plan)
    requires DistinctIds(plans) && DistinctScopes(chain) && AskedBefore(plans, chain, p, q)
    ensures !AskedBefore(plans, chain, q, p) && p != q
  {
  }

  lemma {:induction false} FirstObjectionAt(l: Ledger, r: Request, plans: seq<Plan>) returns (k: nat)
    requires FirstObjection(l, r, plans).Some?
    ensures k < |plans| && Objection(l, r, plans[k]).Some?
    ensures FirstObjection(l, r, plans) == Some(Denial(Objection(l, r, plans[k]).value, {plans[k].id}))
    ensures forall j :: 0 <= j < k ==> Agrees(l, r, plans[j])
    decreases |plans|
  {
    k := 0;
    if Agrees(l, r, plans[0]) {
      var i := FirstObjectionAt(l, r, plans[1..]);
      k := i + 1;
    }
  }

  /** The plans that apply to the request. */
  function Applying(cfg: Config, chain: seq<Scope>, now: int): set<Plan> {
    set p | p in cfg.plans && AppliesTo(p, chain, now)
  }

  predicate BothBounded(r: Request) {
    r.inputBounded && r.outputBounded
  }

  lemma ChainPlansApply(cfg: Config, id: string, version: int, now: int, chain: seq<Scope>)
    requires DistinctIds(cfg.plans) && WellKeyed(cfg.scopes) && ValidChain(cfg.scopes, id, version, chain)
    ensures Applicable(cfg, Some((id, version)), now) == Success(PlansForChain(cfg.plans, chain, now))
    ensures forall p :: p in PlansForChain(cfg.plans, chain, now) <==> p in Applying(cfg, chain, now)
  {
    ChainPlans(cfg, id, version, now, chain);
    forall p
      ensures AppliesTo(p, chain, now) <==> OnChain(p, chain, now)
    {
      AppliesIsOnChain(p, chain, now);
    }
  }

  /** What is looked at before any plan: the attempt, the estimate, and the token bounds, for want of
      which all plans that apply are named. */
  lemma RefusedEarly(cfg: Config, l: Ledger, r: Request, offer: Offer, id: string, version: int, now: int,
                     stale: set<string>, chain: seq<Scope>)
    requires DistinctIds(cfg.plans) && WellKeyed(cfg.scopes) && ValidChain(cfg.scopes, id, version, chain)
    ensures var outcome := Admit(cfg, l, r, offer, Some((id, version)), now, stale);
      if r.attempt in l.attempts then outcome == Failure(Denial(AttemptExists, {}))
      else if !Estimable(r) then outcome == Failure(Denial(EstimateInvalid, {}))
      else if Applying(cfg, chain, now) != {} && !BothBounded(r)
      then outcome == Failure(Denial(RequestCostCeiling, set p | p in Applying(cfg, chain, now) :: p.id))
      else outcome.Failure? ==>
        FirstObjection(Opened(l, r.attempt, offer, stale), r, PlansForChain(cfg.plans, chain, now)) == Some(outcome.error)
  {
    ChainPlansApply(cfg, id, version, now, chain);
    EstimableIs(r);
    var plans := PlansForChain(cfg.plans, chain, now);
    if plans != [] {
      assert plans[0] in plans;
    }
    assert Ids(plans) == set p | p in Applying(cfg, chain, now) :: p.id;
  }

  /** Otherwise the refusal names the first plan, in the order they are asked, that does not permit
      the request, and the first of its conditions that is not met. */
  lemma RefusedByFirst(cfg: Config, ops: seq<Op>, r: Request, offer: Offer, id: string, version: int, now: int,
                       stale: set<string>, chain: seq<Scope>) returns (p: Plan)
    requires DistinctIds(cfg.plans) && WellKeyed(cfg.scopes) && ValidChain(cfg.scopes, id, version, chain)
    requires var l := Play(cfg, EMPTY, ops);
      && r.attempt !in l.attempts && Estimable(r) && (Applying(cfg, chain, now) == {} || BothBounded(r))
      && Admit(cfg, l, r, offer, Some((id, version)), now, stale).Failure?
    ensures var l := Play(cfg, EMPTY, ops);
      var denial := Admit(cfg, l, r, offer, Some((id, version)), now, stale).error;
      && p in Applying(cfg, chain, now) && denial.plans == {p.id} && Names(l, r, p, denial.reason)
      && forall q :: q in Applying(cfg, chain, now) && AskedBefore(cfg.plans, chain, q, p) ==> Permits(l, r, q)
  {
    var l := Play(cfg, EMPTY, ops);
    PlayKeepsJoined(cfg, EMPTY, ops);
    RefusedEarly(cfg, l, r, offer, id, version, now, stale, chain);
    ChainPlansApply(cfg, id, version, now, chain);
    ChainDistinct(cfg.scopes, id, version, chain);
    var plans := PlansForChain(cfg.plans, chain, now);
    var m := Opened(l, r.attempt, offer, stale);
    var k := FirstObjectionAt(m, r, plans);
    p := plans[k];
    SameAnswer(l, r, offer, stale, p);
    ChainOrder(cfg.plans, chain, now);
    forall q | q in Applying(cfg, chain, now) && AskedBefore(cfg.plans, chain, q, p)
      ensures Permits(l, r, q)
    {
      AskedEarlier(cfg.plans, chain, plans, q, k);
      SameAnswer(l, r, offer, stale, q);
    }
  }

  /** A plan asked before the `k`th stands before it. */
  lemma AskedEarlier(stored: seq<Plan>, chain: seq<Scope>, plans: seq<Plan>, q: Plan, k: nat)
    requires DistinctIds(stored) && DistinctScopes(chain) && AskedOrder(stored, chain, plans)
    requires k < |plans| && q in plans && AskedBefore(stored, chain, q, plans[k])
    ensures exists j :: 0 <= j < k && plans[j] == q
  {
    var j :| 0 <= j < |plans| && plans[j] == q;
    OrderIsStrict(stored, chain, q, plans[k]);
    assert j < k;
  }

  lemma SameAnswer(l: Ledger, r: Request, offer: Offer, stale: set<string>, p: Plan)
    requires Joined(l) && r.attempt !in l.attempts && r.reservedMicro >= 0
    ensures var why := Objection(Opened(l, r.attempt, offer, stale), r, p);
      (why.None? <==> Permits(l, r, p)) && (why.Some? ==> Names(l, r, p, why.value))
  {
    ObjectionIs(Opened(l, r.attempt, offer, stale), r, p);
    SameRoom(l, r.attempt, offer, stale, r, p);
  }

  /** The attributed scope is missing, of another version, or not active. */
  predicate IsStale(scopes: map<string, Scope>, id: string, version: int) {
    id !in scopes || scopes[id].version != version || !scopes[id].active
  }

  lemma {:induction false} ClimbReasons(scopes: map<string, Scope>, id: string, version: int, below: nat, steps: nat)
    requires Climb(scopes, id, version, below, steps).Failure?
    ensures Climb(scopes, id, version, below, steps).error in {StaleScope, HierarchyInvalid}
    ensures steps > 0 && IsStale(scopes, id, version) ==> Climb(scopes, id, version, below, steps).error == StaleScope
    decreases steps
  {
    if steps > 0 && !IsStale(scopes, id, version) {
      var latest := scopes[id];
      if latest.parent.Some? && latest.parentVersion.Some? && Climb(scopes, latest.parent.value, latest.parentVersion.value, Rank(latest.kind), steps - 1).Failure? {
        ClimbReasons(scopes, latest.parent.value, latest.parentVersion.value, Rank(latest.kind), steps - 1);
      }
    }
  }

  /** Without a valid chain a new request is refused: in the name of all plans in force, if there are
      any, and otherwise for a stale scope or an invalid hierarchy; a stale scope of its own is said
      to be stale. */
  lemma RefusedChain(cfg: Config, l: Ledger, r: Request, offer: Offer, id: string, version: int, now: int, stale: set<string>)
    requires WellKeyed(cfg.scopes) && r.attempt !in l.attempts && forall chain :: !ValidChain(cfg.scopes, id, version, chain)
    ensures var outcome := Admit(cfg, l, r, offer, Some((id, version)), now, stale);
      var inForce := set p | p in cfg.plans && p.windowStart <= now < p.windowEnd && p.committedAt <= now;
      && outcome.Failure?
      && if inForce != {} then outcome.error == Denial(AttributionInvalid, set p | p in inForce :: p.id)
         else outcome.error.plans == {} && outcome.error.reason in {StaleScope, HierarchyInvalid}
              && (IsStale(cfg.scopes, id, version) ==> outcome.error.reason == StaleScope)
  {
    var chain := ScopeChainOf(cfg.scopes, id, version);
    if chain.Success? { ScopeChainExact(cfg.scopes, id, version, chain.value); }
    if Climb(cfg.scopes, id, version, 4, 3).Failure? { ClimbReasons(cfg.scopes, id, version, 4, 3); }
    EffectivePlansExact(cfg.plans, now);
    var effective := EffectivePlans(cfg.plans, now);
    var inForce := set p | p in cfg.plans && p.windowStart <= now < p.windowEnd && p.committedAt <= now;
    assert forall p :: p in inForce <==> p in effective;
    if effective != [] { assert effective[0] in inForce; }
    assert Ids(effective) == set p | p in inForce :: p.id;
  }

  // ---------------------------------------------------------------- what becomes of a reservation

  /** What the rows of an attempt hold of the plan, from row `i` on. */
  function HeldFrom(l: Ledger, p: Plan, id: string, i: nat): nat
    requires i <= |l.bindings|
    decreases |l.bindings| - i
  {
    if i == |l.bindings| then 0
    else
      var b := l.bindings[i];
      (if InWindow(l, b, p) && b.attempt == id then b.reserved else 0) + HeldFrom(l, p, id, i + 1)
  }

  /** The same rows at a cost in micro-units. */
  function CostFrom(l: Ledger, p: Plan, id: string, cost: nat, i: nat): nat
    requires i <= |l.bindings|
    decreases |l.bindings| - i
  {
    if i == |l.bindings| then 0
    else
      var b := l.bindings[i];
      (if InWindow(l, b, p) && b.attempt == id then cost * 1000 else 0) + CostFrom(l, p, id, cost, i + 1)
  }

  lemma {:induction false} SettledRows(l: Ledger, m: Ledger, p: Plan, id: string, cost: nat, i: nat)
    requires m.bindings == l.bindings && i <= |l.bindings| && id in l.attempts && IsOpen(l.attempts[id])
    requires m.attempts.Keys == l.attempts.Keys && forall a :: a in l.attempts && a != id ==> m.attempts[a] == l.attempts[a]
    requires !IsOpen(m.attempts[id]) && m.attempts[id].cost == Some(cost)
    requires AllEvident(l, p) && AllEvident(m, p)
    ensures SumFrom(m, p, i) + HeldFrom(l, p, id, i) == SumFrom(l, p, i) + CostFrom(l, p, id, cost, i)
    decreases |l.bindings| - i
  {
    if i < |l.bindings| { SettledRows(l, m, p, id, cost, i + 1); }
  }

  /** A settlement is possible exactly for a pending attempt and a final outcome. It gives back what
      the attempt held of every plan and charges the usage at the attempt's own rates instead; the
      other attempts stay. */
  lemma SettlementMoves(l: Ledger, id: string, status: AttemptState, u: Usage, p: Plan)
    ensures Settle(l, id, status, u).Some? <==>
      id in l.attempts && l.attempts[id].state == Pending && status != Pending && status != OutcomeUnknown
    ensures Settle(l, id, status, u).Some? && AllEvident(l, p) && EstimateCost(l.attempts[id].offer.route, u) >= 0 ==>
      var m := Settle(l, id, status, u).value; var cost := EstimateCost(l.attempts[id].offer.route, u);
      && m.attempts[id].state == status && m.bindings == l.bindings && AllEvident(m, p) && Rows(m, p) == Rows(l, p)
      && SumFrom(m, p, 0) + HeldFrom(l, p, id, 0) == SumFrom(l, p, 0) + CostFrom(l, p, id, cost, 0)
      && forall a :: a != id ==> (a in m.attempts <==> a in l.attempts) && (a in l.attempts ==> m.attempts[a] == l.attempts[a])
  {
    if Settle(l, id, status, u).Some? && AllEvident(l, p) && EstimateCost(l.attempts[id].offer.route, u) >= 0 {
      var m := Settle(l, id, status, u).value;
      assert forall k :: 0 <= k < |l.bindings| ==> (InWindow(l, l.bindings[k], p) <==> InWindow(m, l.bindings[k], p));
      assert Rows(l, p) == Rows(m, p);
      SettledRows(l, m, p, id, EstimateCost(l.attempts[id].offer.route, u), 0);
    }
  }

  /** A sweep makes the stale pending attempts unknown, and they go on holding what they held. */
  lemma SweepHolds(l: Ledger, stale: set<string>, p: Plan)
    ensures var m := l.(attempts := SweepAttempts(l.attempts, stale));
      && m.attempts.Keys == l.attempts.Keys
      && (forall a :: a in l.attempts ==>
            m.attempts[a].state == if a in stale && l.attempts[a].state == Pending then OutcomeUnknown else l.attempts[a].state)
      && (forall a :: a in l.attempts ==> m.attempts[a].cost == l.attempts[a].cost && m.attempts[a].offer == l.attempts[a].offer)
      && (AllEvident(l, p) ==> AllEvident(m, p) && SumFrom(m, p, 0) == SumFrom(l, p, 0))
  {
    var m := l.(attempts := SweepAttempts(l.attempts, stale));
    assert forall k :: 0 <= k < |l.bindings| ==> (InWindow(l, l.bindings[k], p) <==> InWindow(m, l.bindings[k], p));
    if AllEvident(l, p) { SameSum(l, m, p, 0); }
  }

  /** So does marking one attempt unknown; it is a change if and only if it was pending, and only a
      settled attempt refuses it. */
  lemma UnknownHolds(l: Ledger, id: string, p: Plan)
    ensures Unknown(l, id).Some? <==> id in l.attempts && IsOpen(l.attempts[id])
    ensures Unknown(l, id).Some? ==>
      var (m, changed) := Unknown(l, id).value;
      && (changed <==> l.attempts[id].state == Pending)
      && m == l.(attempts := l.attempts[id := l.attempts[id].(state := OutcomeUnknown)])
      && (AllEvident(l, p) ==> AllEvident(m, p) && SumFrom(m, p, 0) == SumFrom(l, p, 0))
  {
    if Unknown(l, id).Some? {
      var m := Unknown(l, id).value.0;
      assert m.attempts == l.attempts[id := l.attempts[id].(state := OutcomeUnknown)];
      assert forall k :: 0 <= k < |l.bindings| ==> (InWindow(l, l.bindings[k], p) <==> InWindow(m, l.bindings[k], p));
      if AllEvident(l, p) { SameSum(l, m, p, 0); }
    }
  }

  /** No attempt has two rows for one plan. */
  predicate OneRowEach(l: Ledger) {
    forall i, j :: 0 <= i < j < |l.bindings| && l.bindings[i].attempt == l.bindings[j].attempt ==> l.bindings[i].plan != l.bindings[j].plan
  }

  lemma AdmitKeepsOneRow(cfg: Config, l: Ledger, op: Op)
    requires DistinctIds(cfg.plans) && WellKeyed(cfg.scopes) && Joined(l) && OneRowEach(l)
    requires op.Reserve? && Admit(cfg, l, Priced(op), op.offer, op.scope, op.now, op.stale).Success?
    ensures OneRowEach(Apply(cfg, l, op))
  {
    var r := Priced(op);
    var plans := Applicable(cfg, op.scope, op.now).value;
    ApplicableDistinct(cfg, op.scope, op.now);
    BindingsForAt(r, plans);
    var m := Apply(cfg, l, op);
    forall i, j | 0 <= i < j < |m.bindings| && m.bindings[i].attempt == m.bindings[j].attempt
      ensures m.bindings[i].plan != m.bindings[j].plan
    {
      if j >= |l.bindings| {
        assert m.bindings[j] == BindingsFor(r, plans)[j - |l.bindings|];
        assert i >= |l.bindings|;
        assert m.bindings[i] == BindingsFor(r, plans)[i - |l.bindings|];
      }
    }
  }

  /** In every run an attempt is bound to each plan at most once. */
  lemma {:induction false} BoundOnce(cfg: Config, l: Ledger, ops: seq<Op>)
    requires DistinctIds(cfg.plans) && WellKeyed(cfg.scopes) && Joined(l) && OneRowEach(l)
    ensures Joined(Play(cfg, l, ops)) && OneRowEach(Play(cfg, l, ops))
    decreases |ops|
  {
    if ops != [] {
      var op := ops[0];
      ApplyKeepsJoined(cfg, l, op);
      if op.Reserve? && Admit(cfg, l, Priced(op), op.offer, op.scope, op.now, op.stale).Success? {
        AdmitKeepsOneRow(cfg, l, op);
      }
      BoundOnce(cfg, Apply(cfg, l, op), ops[1..]);
    }
  }
}
