/**
 What a probe lets through, over any run of plans, revocations, requests and claims: the inputs
 claimed under one plan form a strictly growing chain of one piece of work, no longer than the
 plan allows, and no request is claimed twice.
 */
module CodingProbeChain {
  import opened Wrappers
  import opened CodingProbes

  // ---------------------------------------------------------------- the claims of one plan

  /** The claims made under one probe identifier, in order. */
  function Group(claims: seq<Claimed>, id: nat): seq<Claimed> {
    if claims == [] then []
    else
      var last := claims[|claims| - 1];
      Group(claims[..|claims| - 1], id) + if last.probeId == id then [last] else []
  }

  /** An item that is not the user's: a call, its output, or a message of the assistant. */
  predicate IsClients(item: Item) {
    item.Object?
    && (item.kind in {Some("function_call"), Some("function_call_output")}
        || (item.role == Some("assistant") && item.kind in {None, Some("message")}))
  }

  /** `b` continues the conversation of `a`: same plan and work, and more items, all of a kind a
      client may add. */
  predicate Follows(a: Claimed, b: Claimed) {
    && b.plan == a.plan && b.workId == a.workId
    && a.input.Items? && b.input.Items? && a.input.items < b.input.items
    && forall k :: |a.input.items| <= k < |b.input.items| ==> IsClients(b.input.items[k])
  }

  /** The claims of one plan start at the plan's input, number at most what the plan allows, and
      each continues every earlier one. */
  predicate IsChain(hash: Hash, cs: seq<Claimed>) {
    cs != [] ==>
      && |cs| <= cs[0].plan.maxRequests
      && hash(cs[0].input) == cs[0].plan.firstInput
      && forall i, j :: 0 <= i < j < |cs| ==> Follows(cs[i], cs[j])
  }

  /** The probe's counters and marks agree with the claims made under its plan. */
  predicate Tracks(hash: Hash, p: Probe, cs: seq<Claimed>) {
    && p.plan.Some? && p.count == |cs|
    && (forall i :: 0 <= i < |cs| ==> cs[i].plan == p.plan.value)
    && if cs == [] then p.workId == None
       else
         var last := cs[|cs| - 1];
         && p.workId == Some(last.workId) && p.firstLength == Length(cs[0].input)
         && p.lastLength == Length(last.input) && p.lastInput == hash(last.input)
  }

  // ---------------------------------------------------------------- one claim

  /** The claim a successful check makes. */
  function MadeBy(p: Probe, h: Handler): Claimed
    requires p.plan.Some? && h.workId.Some?
  {
    Claimed(p.probeId, p.plan.value, h.workId.value, h.request.arrival, h.request.input)
  }

  /** An unclaimed request that fits extends the last claim. */
  lemma ExtendsLast(hash: Hash, p: Probe, h: Handler, cs: seq<Claimed>)
    requires Injective(hash) && Tracks(hash, p, cs) && IsChain(hash, cs) && cs != []
    requires Extends(hash, p, h) && !h.claimed && h.workId.Some?
    ensures Follows(cs[|cs| - 1], MadeBy(p, h))
  {
    var last := cs[|cs| - 1];
    var items := h.request.input.items;
    assert hash(Prefix(h.request.input, p.lastLength)) == hash(last.input);
    assert Items(items[..p.lastLength]) == last.input;
    assert last.input.items == items[..|last.input.items|];
    assert |cs[0].input.items| <= |last.input.items| by {
      assert |cs| > 1 ==> Follows(cs[0], last);
    }
  }

  lemma FollowsOn(a: Claimed, b: Claimed, c: Claimed)
    requires Follows(a, b) && Follows(b, c)
    ensures Follows(a, c)
  {
    var x, y, z := a.input.items, b.input.items, c.input.items;
    assert x == y[..|x|] && y == z[..|y|];
    assert x == z[..|x|];
    forall k | |x| <= k < |z|
      ensures IsClients(z[k])
    {
      assert k < |y| ==> z[k] == y[k];
    }
  }

  lemma ChainGrows(hash: Hash, cs: seq<Claimed>, c: Claimed)
    requires IsChain(hash, cs) && cs != [] && Follows(cs[|cs| - 1], c) && |cs| < cs[0].plan.maxRequests
    ensures IsChain(hash, cs + [c])
  {
    var all := cs + [c];
    forall i, j | 0 <= i < j < |all|
      ensures Follows(all[i], all[j])
    {
      if j == |cs| && i < |cs| - 1 { FollowsOn(cs[i], cs[|cs| - 1], c); }
    }
  }

  /** A claim keeps the chain and the marks. */
  lemma ClaimKeeps(hash: Hash, p: Probe, h: Handler, now: int, cs: seq<Claimed>)
    requires Injective(hash) && Tracks(hash, p, cs) && IsChain(hash, cs)
    requires Fits(hash, p, h, now) && !h.claimed && h.workId.Some?
    ensures IsChain(hash, cs + [MadeBy(p, h)]) && Tracks(hash, Claim(hash, p, h).0, cs + [MadeBy(p, h)])
  {
    if cs != [] {
      ExtendsLast(hash, p, h, cs);
      ChainGrows(hash, cs, MadeBy(p, h));
    }
  }

  /** The request comes under the probe's identifier from its actor, by the one client and route, for
      the plan's model, version and profile, to the same destination. */
  predicate IsOwn(p: Probe, plan: Plan, r: Request) {
    && r.probeIds == [p.probeId] && r.actor == p.actor && r.client == "codex" && r.path == "/v1/responses"
    && r.requestedModel == plan.model && r.resolvedModel == plan.model && r.generation == p.generation
    && r.agentVersion == Some(plan.clientVersion) && r.profile == plan.profile && r.hasConversation
  }

  /** The input is the plan's first one, if nothing was claimed yet, or continues the last one. */
  predicate Continues(hash: Hash, plan: Plan, cs: seq<Claimed>, h: Handler) {
    var input := h.request.input;
    if cs == [] then !h.request.hasProviderState && hash(input) == plan.firstInput
    else
      var last := cs[|cs| - 1];
      && h.request.hasProviderState && h.workId == Some(last.workId)
      && last.input.Items? && input.Items? && last.input.items < input.items
      && forall k :: |last.input.items| <= k < |input.items| ==> IsClients(input.items[k])
  }

  lemma ContinuingExtends(hash: Hash, p: Probe, h: Handler, cs: seq<Claimed>)
    requires Injective(hash) && Tracks(hash, p, cs) && IsChain(hash, cs) && cs != [] && !h.claimed
    ensures Extends(hash, p, h) <==> Continues(hash, p.plan.value, cs, h)
  {
    if Extends(hash, p, h) {
      assert h.workId.Some?;
      ExtendsLast(hash, p, h, cs);
    }
    if Continues(hash, p.plan.value, cs, h) {
      LastExtended(hash, p, h, cs);
    }
  }

  lemma LastExtended(hash: Hash, p: Probe, h: Handler, cs: seq<Claimed>)
    requires Tracks(hash, p, cs) && IsChain(hash, cs) && cs != []
    requires Continues(hash, p.plan.value, cs, h)
    ensures Extends(hash, p, h)
  {
    var first, last, items := cs[0].input, cs[|cs| - 1].input, h.request.input.items;
    assert |cs| > 1 ==> Follows(cs[0], cs[|cs| - 1]);
    assert last.items == items[..|last.items|] && first.items == items[..|first.items|];
    assert Prefix(h.request.input, p.lastLength) == last && Prefix(h.request.input, p.firstLength) == first;
    forall k | p.firstLength <= k < |items|
      ensures MayAdd(items[k])
    {
      assert k < |last.items| ==> items[k] == last.items[k];
    }
  }

  /** A request not claimed yet fits if and only if the plan is in force with a request left, the
      request is its own, and its input continues the claims made so far. */
  lemma FitsExactly(hash: Hash, p: Probe, h: Handler, now: int, cs: seq<Claimed>)
    requires Injective(hash) && Tracks(hash, p, cs) && IsChain(hash, cs) && !h.claimed
    ensures Fits(hash, p, h, now) <==>
      && !p.revoked && now < p.deadline && |cs| < p.plan.value.maxRequests
      && IsOwn(p, p.plan.value, h.request) && Continues(hash, p.plan.value, cs, h)
  {
    if cs != [] { ContinuingExtends(hash, p, h, cs); }
  }

  // ---------------------------------------------------------------- the invariant of runs

  predicate ArrivalsKnown(g: Gateway) {
    && (forall c :: c in g.claims ==> c.probeId in g.usedIds && c.arrival in g.usedArrivals)
    && (forall s :: s in g.handlers ==> g.handlers[s].request.arrival in g.usedArrivals)
  }

  predicate ArrivalsDistinct(g: Gateway) {
    && (forall s, t :: s in g.handlers && t in g.handlers && s != t ==>
          g.handlers[s].request.arrival != g.handlers[t].request.arrival)
    && (forall i, j :: 0 <= i < j < |g.claims| ==> g.claims[i].arrival != g.claims[j].arrival)
    && (forall s, c :: s in g.handlers && c in g.claims && !g.handlers[s].claimed ==> c.arrival != g.handlers[s].request.arrival)
  }

  ghost predicate Chains(hash: Hash, claims: seq<Claimed>) {
    forall id: nat :: IsChain(hash, Group(claims, id))
  }

  predicate ProbeTracks(hash: Hash, g: Gateway) {
    g.probe.plan.Some? ==> g.probe.probeId in g.usedIds && Tracks(hash, g.probe, Group(g.claims, g.probe.probeId))
  }

  ghost predicate Inv(hash: Hash, g: Gateway) {
    ArrivalsKnown(g) && ArrivalsDistinct(g) && Chains(hash, g.claims) && ProbeTracks(hash, g)
  }

  lemma {:induction false} NoGroup(claims: seq<Claimed>, id: nat)
    requires forall c :: c in claims ==> c.probeId != id
    ensures Group(claims, id) == []
    decreases |claims|
  {
    if claims != [] { NoGroup(claims[..|claims| - 1], id); }
  }

  lemma GroupGrows(claims: seq<Claimed>, c: Claimed, id: nat)
    ensures Group(claims + [c], id) == Group(claims, id) + if c.probeId == id then [c] else []
  {
    assert (claims + [c])[..|claims|] == claims;
  }

  lemma ControlKeeps(hash: Hash, g: Gateway, e: Event)
    requires Inv(hash, g) && Possible(g, e) && e.Control?
    ensures Inv(hash, Step(hash, g, e))
  {
    NoGroup(g.claims, e.freshId);
  }

  lemma ArriveKeeps(hash: Hash, g: Gateway, e: Event)
    requires Inv(hash, g) && Possible(g, e) && (e.Arrive? || e.Bind?)
    ensures Inv(hash, Step(hash, g, e))
  {
  }

  lemma CheckKeeps(hash: Hash, g: Gateway, e: Event)
    requires Injective(hash) && Inv(hash, g) && Possible(g, e) && e.Check?
    ensures Inv(hash, Step(hash, g, e))
  {
    var h := g.handlers[e.slot];
    var r := Checked(hash, g.probe, h, e.now, e.claim);
    if r.Success? && !h.claimed && e.claim {
      NewClaim(hash, g, e, h);
    } else {
      assert g.claims + [] == g.claims;
      assert r.Success? ==> g.handlers[e.slot := h] == g.handlers;
    }
  }

  lemma NewClaim(hash: Hash, g: Gateway, e: Event, h: Handler)
    requires Injective(hash) && Inv(hash, g) && Possible(g, e) && e.Check? && e.claim && h == g.handlers[e.slot] && !h.claimed
    requires Checked(hash, g.probe, h, e.now, e.claim).Success?
    ensures Inv(hash, Step(hash, g, e))
  {
    var c := MadeBy(g.probe, h);
    var after := Step(hash, g, e);
    assert after.claims == g.claims + [c];
    ClaimKeeps(hash, g.probe, h, e.now, Group(g.claims, g.probe.probeId));
    forall id: nat
      ensures IsChain(hash, Group(after.claims, id))
    {
      GroupGrows(g.claims, c, id);
      assert Group(g.claims, id) + [] == Group(g.claims, id);
    }
    GroupGrows(g.claims, c, g.probe.probeId);
    ClaimArrivals(g, after, e.slot, c);
  }

  lemma ClaimArrivals(g: Gateway, after: Gateway, slot: nat, c: Claimed)
    requires ArrivalsKnown(g) && ArrivalsDistinct(g) && slot in g.handlers && !g.handlers[slot].claimed
    requires c.arrival == g.handlers[slot].request.arrival && c.probeId in g.usedIds
    requires after.claims == g.claims + [c] && after.usedIds == g.usedIds && after.usedArrivals == g.usedArrivals
    requires after.handlers.Keys == g.handlers.Keys && after.handlers[slot].claimed
    requires forall s :: s in g.handlers ==> after.handlers[s].request == g.handlers[s].request
    requires forall s :: s in g.handlers && s != slot ==> after.handlers[s] == g.handlers[s]
    ensures ArrivalsKnown(after) && ArrivalsDistinct(after)
  {
    forall i, j | 0 <= i < j < |after.claims|
      ensures after.claims[i].arrival != after.claims[j].arrival
    {
      if j == |g.claims| { assert g.claims[i] in g.claims; }
    }
    assert forall x :: x in after.claims <==> x in g.claims || x == c;
  }

  lemma StepKeeps(hash: Hash, g: Gateway, e: Event)
    requires Injective(hash) && Inv(hash, g) && Possible(g, e)
    ensures Inv(hash, Step(hash, g, e))
  {
    match e {
      case Control(_, _, _, _, _, _) => ControlKeeps(hash, g, e);
      case Arrive(_, _) => ArriveKeeps(hash, g, e);
      case Bind(_, _) => ArriveKeeps(hash, g, e);
      case Check(_, _, _) => CheckKeeps(hash, g, e);
    }
  }

  lemma {:induction false} RunKeeps(hash: Hash, from: Gateway, events: seq<Event>, to: Gateway)
    requires Injective(hash) && Inv(hash, from) && Runs(hash, from, events, to)
    ensures Inv(hash, to)
    decreases |events|
  {
    if events != [] {
      StepKeeps(hash, from, events[0]);
      RunKeeps(hash, Step(hash, from, events[0]), events[1..], to);
    }
  }

  lemma StartInv(hash: Hash)
    ensures Inv(hash, START)
  {
  }

  // ---------------------------------------------------------------- main results

  /** After any run: the claims under each plan form a strictly growing chain of one work that
      starts at the plan's input and is no longer than the plan allows; the probe has counted
      exactly the claims under its plan; and no request was claimed twice. */
  lemma ProbeChain(hash: Hash, events: seq<Event>, g: Gateway)
    requires Injective(hash) && Runs(hash, START, events, g)
    ensures forall id: nat :: IsChain(hash, Group(g.claims, id))
    ensures g.probe.plan.Some? ==> g.probe.count == |Group(g.claims, g.probe.probeId)| <= g.probe.plan.value.maxRequests
    ensures forall i, j :: 0 <= i < j < |g.claims| ==> g.claims[i].arrival != g.claims[j].arrival
  {
    StartInv(hash);
    RunKeeps(hash, START, events, g);
    if g.probe.plan.Some? && g.probe.count > 0 {
      assert IsChain(hash, Group(g.claims, g.probe.probeId));
    }
  }

  /** The same plan, armed at the same time, with its first claim made. */
  predicate SamePlan(p: Probe, q: Probe) {
    && q.plan == p.plan && q.probeId == p.probeId && q.actor == p.actor && q.generation == p.generation
    && q.deadline == p.deadline && q.workId == p.workId && q.firstLength == p.firstLength
  }

  /** Once claimed, a request is admitted again at every later check, however many others were
      claimed since, exactly until the plan is revoked or its time is over. */
  lemma ClaimedUntilOver(hash: Hash, p: Probe, h: Handler, now: int, later: Probe, at: int)
    requires Checked(hash, p, h, now, true).Success? && !h.claimed
    requires SamePlan(Checked(hash, p, h, now, true).value.0, later)
    ensures var claimed := Checked(hash, p, h, now, true).value.1;
      Fits(hash, later, claimed, at) <==> !later.revoked && at < later.deadline
  {
  }

  /** A plan takes the place of another exactly when it is well formed, nothing speaks against it,
      and the other is revoked or within a millisecond of its end. */
  lemma ReplacedExactly(p: Probe, who: string, plan: Plan, at: Setting, freshId: nat, now: int)
    requires p.plan.Some?
    ensures Controlled(p, who, Some(plan), false, at, freshId, now).Success?
       <==> at.wellFormed && at.obstacle.None? && (p.revoked || p.deadline - now < 1000)
    ensures var r := Controlled(p, who, Some(plan), false, at, freshId, now);
      r.Success? ==> r.value.plan == Some(plan) && r.value.probeId == freshId && r.value.count == 0 && r.value.workId.None?
  {
    assert RemainingMs(p, now) == 0 <==> p.deadline - now < 1000;
    assert StatusOf(p, now) in {Armed, Running, Exhausted} <==> !p.revoked && RemainingMs(p, now) != 0;
  }

  /** While a plan still lets a request through, it may be replaced exactly in its last millisecond,
      which the status already shows as expired. */
  lemma ReplacedWhileOpenExactly(hash: Hash, p: Probe, h: Handler, who: string, plan: Plan, at: Setting, freshId: nat, now: int)
    requires Fits(hash, p, h, now) && at.wellFormed && at.obstacle.None?
    ensures Controlled(p, who, Some(plan), false, at, freshId, now).Success? <==> p.deadline - now < 1000
    ensures p.deadline - now < 1000 <==> StatusOf(p, now) == Expired
  {
    ReplacedExactly(p, who, plan, at, freshId, now);
    assert RemainingMs(p, now) == 0 <==> p.deadline - now < 1000;
  }

  const OPEN_PLAN := Plan(5, 1, "model", "1.0", 0, 1_000_000)

  const OPEN_PROBE := IDLE.(plan := Some(OPEN_PLAN), probeId := 1, actor := "actor", deadline := 1_000_000)

  const OPEN_REQUEST := Request(0, [1], "actor", "codex", "/v1/responses", "model", "model", 0, Some("1.0"), 0, true, false, Items([]))

  /** It happens: half a millisecond before the end of a plan its first request fits and would be
      claimed, but a new plan takes its place and the request is refused. */
  lemma ReplacedWhileOpen(now: int, plan: Plan)
    requires now == 999_500
    ensures var hash: Hash := (input: Input) => 5; var h := Handler(OPEN_REQUEST, Some("work"), false, false);
      && Controlled(IDLE, "actor", Some(OPEN_PLAN), false, Setting(true, None, 0), 1, 0) == Success(OPEN_PROBE)
      && Checked(hash, OPEN_PROBE, h, now, true).Success?
      && var r := Controlled(OPEN_PROBE, "actor", Some(plan), false, Setting(true, None, 0), 2, now);
        r.Success? && !Fits(hash, r.value, h, now)
  {
    var hash: Hash := (input: Input) => 5;
    var h := Handler(OPEN_REQUEST, Some("work"), false, false);
    assert Addressed(OPEN_PROBE, h, now);
    assert StatusOf(OPEN_PROBE, now) == Expired;
    var r := Controlled(OPEN_PROBE, "actor", Some(plan), false, Setting(true, None, 0), 2, now);
    assert r.value.probeId == 2 && [1][0] != [2][0];
  }

  /** What the status says of a plan: a request may be claimed only under a plan shown as armed or
      running, but for the last millisecond, when the plan is shown as expired; and a new plan is
      turned away exactly while the old one is shown as armed, running or exhausted. */
  lemma StatusMeans(hash: Hash, p: Probe, h: Handler, who: string, plan: Plan, at: Setting, freshId: nat, now: int)
    ensures Fits(hash, p, h, now) && !h.claimed ==>
      StatusOf(p, now) == (if p.deadline - now < 1000 then Expired else if p.count == 0 then Armed else Running)
    ensures at.wellFormed ==>
      (StatusOf(p, now) in {Armed, Running, Exhausted} <==>
       Controlled(p, who, Some(plan), false, at, freshId, now) == Failure(AlreadyActive))
    ensures StatusOf(p, now) == Revoked ==> !Fits(hash, p, h, now)
    ensures StatusOf(p, now) == Exhausted && !h.claimed ==> !Fits(hash, p, h, now)
  {
  }
}
