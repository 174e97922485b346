/**
 Where claims come from: in every run each claim was made by a request of the plan's own actor,
 client, route, model, version, profile and destination, in the plan's time and before the plan was
 revoked.
 */
module CodingProbeOrigin {
  import opened Wrappers
  import opened CodingProbes

  lemma {:induction false} RunsByLast(hash: Hash, from: Gateway, events: seq<Event>, to: Gateway) returns (mid: Gateway)
    requires events != [] && Runs(hash, from, events, to)
    ensures Runs(hash, from, events[..|events| - 1], mid)
    ensures Possible(mid, events[|events| - 1]) && to == Step(hash, mid, events[|events| - 1])
    decreases |events|
  {
    var n := |events| - 1;
    if n == 0 {
      mid := from;
      assert events[..0] == [] && events[1..] == [];
    } else {
      mid := RunsByLast(hash, Step(hash, from, events[0]), events[1..], to);
      assert events[1..][..n - 1] == events[..n][1..] && events[1..][n - 1] == events[n] && events[..n][0] == events[0];
    }
  }

  // ---------------------------------------------------------------- plans

  /** The event installs the plan of the probe as it stands. */
  predicate Arms(e: Event, p: Probe) {
    && e.Control? && !e.revoke && e.plan.Some? && e.plan == p.plan && e.at.wellFormed && e.at.obstacle.None?
    && p.probeId == e.freshId && p.actor == e.who && p.generation == e.at.generation
    && p.deadline == e.now + e.plan.value.elapsed
  }

  predicate Revokes(e: Event) {
    e.Control? && e.revoke && e.plan.None?
  }

  /** Event `i` installed the plan, and it is revoked if a later event revoked it. */
  predicate ArmedAt(events: seq<Event>, p: Probe, i: nat) {
    && i < |events| && Arms(events[i], p)
    && (p.revoked <==> exists j :: i < j < |events| && Revokes(events[j]))
  }

  ghost predicate Armed(events: seq<Event>, p: Probe) {
    p.plan.Some? ==> exists i: nat :: ArmedAt(events, p, i)
  }

  lemma ArmedOn(events: seq<Event>, e: Event, p: Probe, q: Probe)
    requires Armed(events, p) && p.plan.Some?
    requires q.plan == p.plan && q.probeId == p.probeId && q.actor == p.actor && q.generation == p.generation && q.deadline == p.deadline
    requires q.revoked <==> p.revoked || Revokes(e)
    ensures Armed(events + [e], q)
  {
    var i: nat :| ArmedAt(events, p, i);
    var all := events + [e];
    assert all[i] == events[i] && all[|events|] == e;
    if j :| i < j < |events| && Revokes(events[j]) { assert all[j] == events[j]; }
    if j :| i < j < |all| && Revokes(all[j]) { assert j < |events| ==> events[j] == all[j]; }
    assert ArmedAt(all, q, i);
  }

  lemma ControlArms(hash: Hash, events: seq<Event>, g: Gateway, e: Event)
    requires Armed(events, g.probe) && Possible(g, e) && e.Control?
    ensures Armed(events + [e], Step(hash, g, e).probe)
  {
    var r := Controlled(g.probe, e.who, e.plan, e.revoke, e.at, e.freshId, e.now);
    if r.Success? && e.plan.Some? {
      assert (events + [e])[|events|] == e;
      assert ArmedAt(events + [e], r.value, |events|);
    } else if g.probe.plan.Some? {
      ArmedOn(events, e, g.probe, Step(hash, g, e).probe);
    }
  }

  lemma OthersArm(hash: Hash, events: seq<Event>, g: Gateway, e: Event)
    requires Armed(events, g.probe) && Possible(g, e) && !e.Control?
    ensures Armed(events + [e], Step(hash, g, e).probe)
  {
    if g.probe.plan.Some? { ArmedOn(events, e, g.probe, Step(hash, g, e).probe); }
  }

  // ---------------------------------------------------------------- requests

  /** The request in each slot arrived there. */
  ghost predicate Arrived(events: seq<Event>, handlers: map<nat, Handler>) {
    forall slot :: slot in handlers ==> Arrive(slot, handlers[slot].request) in events
  }

  lemma StepArrived(hash: Hash, events: seq<Event>, g: Gateway, e: Event)
    requires Arrived(events, g.handlers) && Possible(g, e)
    ensures Arrived(events + [e], Step(hash, g, e).handlers)
  {
    var h := Step(hash, g, e).handlers;
    forall slot | slot in h
      ensures Arrive(slot, h[slot].request) in events + [e]
    {
      if slot in g.handlers && h[slot].request == g.handlers[slot].request {
        assert Arrive(slot, g.handlers[slot].request) in events;
      }
    }
  }

  // ---------------------------------------------------------------- claims

  /** The request is the plan's own: its probe, actor, client, route, model, version and profile; and
      it is bound to a work. */
  predicate Own(r: Request, arm: Event, c: Claimed)
    requires arm.Control?
  {
    && r.arrival == c.arrival && r.input == c.input && c.workId != ""
    && r.probeIds == [c.probeId] && r.actor == arm.who && r.client == "codex" && r.path == "/v1/responses"
    && r.requestedModel == c.plan.model && r.resolvedModel == c.plan.model && r.generation == arm.at.generation
    && r.agentVersion == Some(c.plan.clientVersion) && r.profile == c.plan.profile && r.hasConversation
  }

  /** Event `i` installed the plan of the claim, event `k` was the arrival of a request of its own and
      event `j` claimed it, in the plan's time and with no revocation in between. */
  predicate ClaimedAt(events: seq<Event>, c: Claimed, i: nat, k: nat, j: nat) {
    && i < j < |events| && k < j
    && events[i].Control? && !events[i].revoke && events[i].plan == Some(c.plan) && events[i].freshId == c.probeId
    && events[j].Check? && events[j].claim && events[j].now < events[i].now + c.plan.elapsed
    && events[k].Arrive? && events[k].slot == events[j].slot && Own(events[k].request, events[i], c)
    && !exists m :: i < m < j && Revokes(events[m])
  }

  ghost predicate HasOrigin(events: seq<Event>, c: Claimed) {
    exists i: nat, k: nat, j: nat :: ClaimedAt(events, c, i, k, j)
  }

  lemma OriginStays(events: seq<Event>, e: Event, c: Claimed)
    requires HasOrigin(events, c)
    ensures HasOrigin(events + [e], c)
  {
    var i: nat, k: nat, j: nat :| ClaimedAt(events, c, i, k, j);
    var all := events + [e];
    assert all[i] == events[i] && all[k] == events[k] && all[j] == events[j];
    assert forall m :: i < m < j ==> all[m] == events[m];
    assert ClaimedAt(all, c, i, k, j);
  }

  /** The claims a step makes. */
  lemma StepClaims(hash: Hash, g: Gateway, e: Event)
    requires Possible(g, e)
    ensures var claims := Step(hash, g, e).claims;
      claims == g.claims
      || (&& claims != [] && e.Check? && e.claim && g.probe.plan.Some? && Addressed(g.probe, g.handlers[e.slot], e.now)
          && claims[|claims| - 1].workId != ""
          && claims == g.claims + [Claimed(g.probe.probeId, g.probe.plan.value, claims[|claims| - 1].workId,
                                           g.handlers[e.slot].request.arrival, g.handlers[e.slot].request.input)])
  {
    assert g.claims + [] == g.claims;
  }

  lemma NewOrigin(events: seq<Event>, g: Gateway, e: Event, c: Claimed)
    requires Armed(events, g.probe) && Arrived(events, g.handlers) && Possible(g, e)
    requires e.Check? && e.claim && g.probe.plan.Some? && Addressed(g.probe, g.handlers[e.slot], e.now)
    requires c.workId != "" && c == Claimed(g.probe.probeId, g.probe.plan.value, c.workId, g.handlers[e.slot].request.arrival, g.handlers[e.slot].request.input)
    ensures HasOrigin(events + [e], c)
  {
    var all, j := events + [e], |events|;
    var r := g.handlers[e.slot].request;
    var i: nat :| ArmedAt(events, g.probe, i);
    assert Arrive(e.slot, r) in events;
    var k: nat :| k < |events| && events[k] == Arrive(e.slot, r);
    assert all[i] == events[i] && all[k] == events[k] && all[j] == e;
    assert forall m :: i < m < j ==> all[m] == events[m];
    assert Own(r, all[i], c);
    assert ClaimedAt(all, c, i, k, j);
  }

  lemma StepOrigins(hash: Hash, events: seq<Event>, g: Gateway, e: Event)
    requires Armed(events, g.probe) && Arrived(events, g.handlers) && Possible(g, e)
    requires forall c :: c in g.claims ==> HasOrigin(events, c)
    ensures forall c :: c in Step(hash, g, e).claims ==> HasOrigin(events + [e], c)
  {
    StepClaims(hash, g, e);
    var claims := Step(hash, g, e).claims;
    forall c | c in claims
      ensures HasOrigin(events + [e], c)
    {
      if c in g.claims {
        OriginStays(events, e, c);
      } else {
        NewOrigin(events, g, e, c);
      }
    }
  }

  /** In every run every claim was made by a request of the plan's own, while the plan was in force. */
  lemma {:induction false} ClaimsHaveOrigin(hash: Hash, events: seq<Event>, g: Gateway)
    requires Runs(hash, START, events, g)
    ensures Armed(events, g.probe) && Arrived(events, g.handlers)
    ensures forall c :: c in g.claims ==> HasOrigin(events, c)
    decreases |events|
  {
    if events != [] {
      var front, e := events[..|events| - 1], events[|events| - 1];
      var before := RunsByLast(hash, START, events, g);
      ClaimsHaveOrigin(hash, front, before);
      assert events == front + [e];
      if e.Control? { ControlArms(hash, front, before, e); } else { OthersArm(hash, front, before, e); }
      StepArrived(hash, front, before, e);
      StepOrigins(hash, front, before, e);
    }
  }
}
