/** Who may delegate to whom, and what an accepted offer gives, in terms of the envelope's own maps. */
module Roles {
  import opened Prelude
  import opened Permissions
  import opened Authorities
  import opened Delegation
  import opened Pipeline
  import opened GovernorRuns

  /** An agent's role; empty when it has none. */
  function RoleOf(env: Envelope, agent: AgentId): string {
    if agent in env.roles then env.roles[agent] else ""
  }

  /** The roles that an agent with `role` may delegate to. */
  function Targets(env: Envelope, role: string): set<string> {
    if role in env.allowedDelegations then env.allowedDelegations[role] else {}
  }

  /** Both agents have a role, and that of `to` is not among those `from` may delegate to. */
  predicate Forbidden(env: Envelope, from: AgentId, to: AgentId) {
    RoleOf(env, from) != "" && RoleOf(env, to) != "" && RoleOf(env, to) !in Targets(env, RoleOf(env, from))
  }

  /** Every answer to an offer, by what is on the envelope's maps and what was read. */
  lemma AnswersExactly(env: Envelope, from: AgentId, to: AgentId, offered: Grants, fromAuth: Grants,
                       current: Grants, clamped: Grants, merge: bool, auditOk: bool)
    ensures
      var r := Ruling(env, from, to, offered, fromAuth, current, clamped, merge, auditOk);
      var known := from in env.ceilings && to in env.ceilings;
      var held := known && !Forbidden(env, from, to) && SubsetOf(offered, fromAuth);
      var collides := exists p, q :: p in current.permissions && q in clamped.permissions
                                     && p.name + ":" + p.scope == q.name + ":" + q.scope;
      && (r == Err(UnknownDelegator) <==> from !in env.ceilings)
      && (r == Err(UnknownRecipient) <==> from in env.ceilings && to !in env.ceilings)
      && (r == Err(RoleViolation) <==> known && Forbidden(env, from, to))
      && (r == Err(NotHeld) <==> known && !Forbidden(env, from, to) && !SubsetOf(offered, fromAuth))
      && (r == Err(MergeConflict) <==> held && merge && collides)
      && (r == Err(AuditFailed) <==> held && !(merge && collides) && !auditOk)
      && (r == Ok(()) <==> held && !(merge && collides) && auditOk)
  {
    assert Collides(current, clamped) <==>
           exists p, q :: p in current.permissions && q in clamped.permissions
                          && p.name + ":" + p.scope == q.name + ":" + q.scope by {
      if Collides(current, clamped) {
        var p, q :| p in current.permissions && q in clamped.permissions && Key(p) == Key(q);
        assert p.name + ":" + p.scope == q.name + ":" + q.scope;
      }
      if p, q :| p in current.permissions && q in clamped.permissions && p.name + ":" + p.scope == q.name + ":" + q.scope {
        assert Key(p) == Key(q);
      }
    }
  }

  /** A lead may delegate to a worker, and a worker to no lead. */
  lemma LeadToWorkerOnly(env: Envelope)
    requires env.roles == map["a" := "lead", "b" := "worker"] && env.allowedDelegations == map["lead" := {"worker"}]
    ensures !Forbidden(env, "a", "b") && RolesAllow(env, "a", "b")
    ensures Forbidden(env, "b", "a") && !RolesAllow(env, "b", "a")
  {}

  /** What an offer leaves: the clamp alone, or everything the recipient had and everything the clamp has. */
  lemma ReceivedExactly(current: Grants, clamped: Grants, p: Permission)
    ensures p in Received(false, current, clamped, false).permissions <==> p in clamped.permissions
    ensures p in Received(false, current, clamped, true).permissions <==> p in current.permissions || p in clamped.permissions
    ensures Received(false, current, clamped, false).stored == clamped.stored
    ensures forall k :: k in current.stored && k !in clamped.stored ==>
              k in Received(false, current, clamped, true).stored && Received(false, current, clamped, true).stored[k] == current.stored[k]
    ensures forall k :: k in clamped.stored ==>
              k in Received(false, current, clamped, true).stored && Received(false, current, clamped, true).stored[k] == clamped.stored[k]
    ensures Received(true, current, clamped, false).permissions == clamped.permissions
    ensures Received(true, current, clamped, true).permissions == current.permissions + clamped.permissions
  {}

  // ---- over runs of calls ----

  /** No call passes authority between a pair the map forbids, or between agents it does not know. */
  lemma ForbiddenOfferChangesNothing(r: Rules, states: seq<Memory>, calls: seq<Call>, i: nat)
    requires IsCallRun(r, states, calls) && i < |calls| && calls[i].Offer?
    requires Forbidden(r.pol.env, calls[i].from, calls[i].to)
    ensures states[i + 1].live == states[i].live
  {
    var c := calls[i];
    AnswersExactly(r.pol.env, c.from, c.to, c.offered, c.fromAuth, AuthorityOf(states[i].live, c.to), c.clamped, c.merge, c.auditOk);
    assert Does(r, states[i], c, states[i + 1]);
  }

  /** Every offer made to `agent` comes from one that may not delegate to it, and it is never reset. */
  ghost predicate CutOff(r: Rules, calls: seq<Call>, agent: AgentId) {
    forall i :: 0 <= i < |calls| ==>
      && (calls[i].Offer? && calls[i].to == agent ==> Forbidden(r.pol.env, calls[i].from, agent))
      && calls[i] != Reset(agent)
  }

  lemma ShrinksTransitive(x: Grants, y: Grants, z: Grants)
    requires Shrinks(x, y) && Shrinks(y, z)
    ensures Shrinks(x, z)
  {}

  lemma CutOffStep(r: Rules, m: Memory, c: Call, next: Memory, agent: AgentId)
    requires Does(r, m, c, next) && c != Reset(agent)
    requires c.Offer? && c.to == agent ==> Forbidden(r.pol.env, c.from, agent)
    ensures Shrinks(AuthorityOf(m.live, agent), AuthorityOf(next.live, agent))
  {
    match c
    case Submit(t) =>
      OnlySpendingTouchesAuthority(r, m, t);
      ConsumeShrinks(AuthorityOf(m.live, t.p.agent), t.p.required, 1);
    case Offer(from, to, offered, merge, _, auditOk, fromAuth, clamped) =>
      AnswersExactly(r.pol.env, from, to, offered, fromAuth, AuthorityOf(m.live, to), clamped, merge, auditOk);
    case Reset(_) =>
  }

  /** An agent that only forbidden delegators make offers to never gains anything, over any run. */
  lemma CutOffAgentOnlyLoses(r: Rules, states: seq<Memory>, calls: seq<Call>, agent: AgentId)
    requires IsCallRun(r, states, calls) && CutOff(r, calls, agent)
    ensures Shrinks(AuthorityOf(states[0].live, agent), AuthorityOf(states[|calls|].live, agent))
  {
    for n := 0 to |calls|
      invariant Shrinks(AuthorityOf(states[0].live, agent), AuthorityOf(states[n].live, agent))
    {
      assert Does(r, states[n], calls[n], states[n + 1]);
      CutOffStep(r, states[n], calls[n], states[n + 1], agent);
      ShrinksTransitive(AuthorityOf(states[0].live, agent), AuthorityOf(states[n].live, agent), AuthorityOf(states[n + 1].live, agent));
    }
  }

  /** A successful offer between agents with roles is one the map allows, and what it gives was held by the delegator. */
  lemma SuccessIsAllowed(r: Rules, m: Memory, c: Call, next: Memory)
    requires c.Offer? && Does(r, m, c, next) && Answer(r.pol.env, m, c).Ok?
    ensures RoleOf(r.pol.env, c.from) != "" && RoleOf(r.pol.env, c.to) != "" ==>
              RoleOf(r.pol.env, c.to) in Targets(r.pol.env, RoleOf(r.pol.env, c.from))
    ensures SubsetOf(c.offered, c.fromAuth) && MayHandOn(m, c.from, c.clock, c.fromAuth)
    ensures IsClamp(c.offered, r.pol.env.ceilings[c.to], c.clamped)
    ensures forall p :: p in next.live[c.to].permissions <==>
              p in c.clamped.permissions || (c.merge && p in AuthorityOf(m.live, c.to).permissions)
  {
    AnswersExactly(r.pol.env, c.from, c.to, c.offered, c.fromAuth, AuthorityOf(m.live, c.to), c.clamped, c.merge, c.auditOk);
  }
}
