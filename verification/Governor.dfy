/** The governor without a store: evaluation, delegation and revocation over its own fields. */
module Governor {
  import opened Prelude
  import opened Permissions
  import opened Authorities
  import opened AuthorityObject
  import opened Decisions
  import opened Delegation
  import opened Restrictions
  import opened Pipeline
  import opened GovernorRuns
  import Replay
  import Quorum

  class ChainmailGovernor {
    const rules: Rules
    var live: Live
    var restricted: map<AgentId, seq<Restriction>>
    var stepBudgets: map<AgentId, map<string, int>>
    var seenNonces: seq<string>
    var seenIds: seq<string>
    var steps: int
    var agentSteps: map<AgentId, int>
    var executions: nat

    ghost function Now(): Memory
      reads this
    {
      Memory(live, restricted, stepBudgets, seenNonces, seenIds, steps, agentSteps, executions)
    }

    /** Every agent of the envelope, and no other, has a live authority. */
    ghost predicate Valid()
      reads this
    {
      live.Keys == rules.pol.env.ceilings.Keys
    }

    constructor (rules: Rules)
      ensures Valid() && this.rules == rules
      ensures Now() == Memory(rules.pol.env.ceilings, map[], map[], [], [], 0, map[], 0)
    {
      this.rules := rules;
      live, restricted, stepBudgets := rules.pol.env.ceilings, map[], map[];
      seenNonces, seenIds, steps, agentSteps, executions := [], [], 0, map[], 0;
    }

    // ---- evaluation ----

    /** Consumes the identifiers of an authenticated proposal. */
    method RememberIdentifiers(p: Proposal)
      modifies this`seenNonces, this`seenIds
      ensures seenNonces == if p.nonce == "" then old(seenNonces)
                            else Replay.Remembered(old(seenNonces), Replay.CacheKey(p.agent, p.nonce), rules.cfg.caps.nonces)
      ensures seenIds == if rules.cfg.dedupeProposalIds then Replay.Remembered(old(seenIds), p.id, rules.cfg.caps.proposals)
                         else old(seenIds)
    {
      if p.nonce != "" {
        seenNonces := Replay.ReplayGuard.Remember(seenNonces, Replay.CacheKey(p.agent, p.nonce), rules.cfg.caps.nonces);
      }
      if rules.cfg.dedupeProposalIds {
        seenIds := Replay.ReplayGuard.Remember(seenIds, p.id, rules.cfg.caps.proposals);
      }
    }

    /** Structure, identity, signature and replay; counts the attempt when all pass. */
    method Admit(p: Proposal, w: Surroundings) returns (ok: bool)
      requires Valid()
      modifies this
      ensures Valid()
      ensures ok == Admitted(rules.pol, rules.cfg, old(Now()), p, w)
      ensures Now() == if ok then Counted(rules.cfg, old(Now()), p) else old(Now())
    {
      var pol, cfg := rules.pol, rules.cfg;
      if !w.envelopeIntact || !w.wellFormed || p.agent !in pol.env.ceilings {
        return false;
      }
      if pol.allowedActions.Some? && p.action !in pol.allowedActions.value {
        return false;
      }
      if cfg.dedupeProposalIds && p.id in seenIds {
        return false;
      }
      if w.signature == Bad || (w.signature == Absent && cfg.requireSignature) {
        return false;
      }
      if p.nonce != "" && Replay.CacheKey(p.agent, p.nonce) in seenNonces {
        return false;
      }
      RememberIdentifiers(p);
      steps := steps + 1;
      agentSteps := agentSteps[p.agent := (if p.agent in agentSteps then agentSteps[p.agent] else 0) + 1];
      return true;
    }

    /** The restrictions live now; dead entries leave the list. */
    method ActiveRestrictions(agent: AgentId, clock: real) returns (active: set<Permission>)
      modifies this`restricted
      ensures active == Active(RestrictionsOf(old(Now()), agent), Moment(steps, clock))
      ensures restricted == PrunedFor(old(restricted), agent, Moment(steps, clock))
    {
      var now := Moment(steps, clock);
      var list := if agent in restricted then restricted[agent] else [];
      active := {};
      var kept: seq<Restriction> := [];
      for i := 0 to |list|
        invariant active == Active(list[..i], now) && kept == Pruned(list[..i], now)
        invariant restricted == old(restricted)
      {
        assert list[..i + 1] == list[..i] + [list[i]];
        ActiveSnoc(list[..i], list[i], now);
        if IsLive(list[i].expiry, now) {
          active := active + {list[i].permission};
          kept := kept + [list[i]];
        }
      }
      assert list[..|list|] == list;
      if agent in restricted {
        restricted := restricted[agent := kept];
      }
    }

    /** Authority under the active restrictions, computed afresh. */
    method EffectiveAuthority(agent: AgentId, clock: real) returns (base: Authority, current: Authority, ghost active: set<Permission>)
      modifies this`restricted
      ensures fresh(base) && fresh(current)
      ensures active == Active(RestrictionsOf(old(Now()), agent), Moment(steps, clock))
      ensures restricted == PrunedFor(old(restricted), agent, Moment(steps, clock))
      ensures base.Value() == AuthorityOf(live, agent)
      ensures IsEffective(base.Value(), active, current.Value())
    {
      var held := if agent in live then live[agent] else NOTHING;
      base := new Authority(held.permissions, held.stored);
      var found := ActiveRestrictions(agent, clock);
      active := found;
      if found == {} {
        current := base;
        return;
      }
      var untouched := set p | p in held.permissions && forall a | a in found :: !Covers(p, a);
      assert untouched == Untouched(base.Value(), found);
      current := base.ReduceTo(untouched);
    }

    /** The permission and budget gates, on authority read afresh. */
    method CheckPermission(p: Proposal, clock: real) returns (ok: bool)
      modifies this`restricted
      ensures ok == Holds(AuthorityOf(live, p.agent),
                          Active(RestrictionsOf(old(Now()), p.agent), Moment(steps, clock)), p.required)
      ensures restricted == PrunedFor(old(restricted), p.agent, Moment(steps, clock))
    {
      var base, current, active := EffectiveAuthority(p.agent, clock);
      EffectiveIsExactlyUntouched(base.Value(), active, current.Value());
      var can := current.Can(p.required);
      if !can {
        return false;
      }
      ok := base.HasBudget(p.required);
    }

    /** The step-budget gate: true when the counter had already run out. */
    method CheckStepBudget(p: Proposal) returns (exhausted: bool)
      modifies this`stepBudgets
      ensures exhausted == (StepBudgetOf(rules.pol, old(Now()), p).Some? && StepBudgetOf(rules.pol, old(Now()), p).value <= 0)
      ensures stepBudgets == StepBudgetUsed(rules.pol, old(Now()), p)
    {
      if rules.pol.restrictPolicy != STEP_BUDGET || p.agent !in stepBudgets {
        return false;
      }
      var mine := stepBudgets[p.agent];
      var key := Key(p.required);
      if key !in mine {
        return false;
      }
      if mine[key] <= 0 {
        stepBudgets := stepBudgets[p.agent := mine - {key}];
        return true;
      }
      stepBudgets := stepBudgets[p.agent := mine[key := mine[key] - 1]];
      return false;
    }

    /** Step budgets, schema and hard denials. */
    method CheckLimits(ghost m: Memory, p: Proposal, w: Surroundings) returns (ok: bool)
      requires Admitted(rules.pol, rules.cfg, m, p, w) && Now() == Counted(rules.cfg, m, p)
      ensures ok == ReadsAuthority(rules.pol, rules.cfg, m, p, w)
    {
      if steps > rules.pol.maxFleetSteps {
        return false;
      }
      if rules.cfg.perAgentStepBudget != 0 && agentSteps[p.agent] > rules.cfg.perAgentStepBudget {
        return false;
      }
      return w.schemaOk && p.action !in rules.pol.hardDenials;
    }

    /** Step budgets, schema, denials, permission, budget and step-budget restriction, after admission from `m`. */
    method Authorise(ghost m: Memory, p: Proposal, w: Surroundings) returns (ok: bool)
      requires Valid() && Admitted(rules.pol, rules.cfg, m, p, w) && Now() == Counted(rules.cfg, m, p)
      modifies this`restricted, this`stepBudgets
      ensures Valid()
      ensures ok == Authorised(rules.pol, rules.cfg, m, p, w)
      ensures Now() == Gated(rules, m, p, w)
    {
      var allowed := CheckLimits(m, p, w);
      if !allowed {
        return false;
      }
      assert RestrictionsOf(Now(), p.agent) == RestrictionsOf(m, p.agent);
      var holds := CheckPermission(p, w.clock);
      if !holds {
        return false;
      }
      assert StepBudgetOf(rules.pol, Now(), p) == StepBudgetOf(rules.pol, m, p);
      assert StepBudgetUsed(rules.pol, Now(), p) == StepBudgetUsed(rules.pol, m, p);
      var exhausted := CheckStepBudget(p);
      return !exhausted;
    }

    /** The peers' ruling on a CONTINUE. */
    method Consult(w: Surroundings) returns (d: Decision)
      requires w.votes.Some? ==> Quorum.Positive(w.votes.value)
      requires 0.0 < rules.threshold <= 1.0
      ensures d == Quorum.Peers(w.votes, rules.threshold, rules.humanOnDisagreement)
    {
      if w.votes.None? {
        return CONTINUE;
      }
      var q := new Quorum.QuorumAggregator(rules.threshold, rules.humanOnDisagreement);
      var o := q.Aggregate(w.votes.value);
      return o.decision;
    }

    /** Calls the boundary, then spends one unit from the live authority. */
    method Execute(p: Proposal, w: Surroundings) returns (ok: bool)
      requires Valid() && p.agent in live
      modifies this`executions, this`live
      ensures Valid()
      ensures ok == (w.boundary == NotWired || w.boundary == Accepts)
      ensures executions == if w.boundary == NotWired then old(executions) else old(executions) + 1
      ensures live == if ok then old(live)[p.agent := Consume(old(live)[p.agent], p.required, 1)] else old(live)
    {
      if w.boundary != NotWired {
        executions := executions + 1;
        if w.boundary != Accepts {
          return false;
        }
      }
      var held := new Authority(live[p.agent].permissions, live[p.agent].stored);
      var _ := held.ConsumeBudget(p.required, 1);
      live := live[p.agent := Grants(held.permissions, held.budgetRemaining)];
      return true;
    }

    /** Remembers a restriction on the requested permission. */
    method Restrict(p: Proposal, clock: real)
      modifies this`restricted, this`stepBudgets
      ensures Now() == Restricting(rules.pol, old(Now()), p, clock)
    {
      var expiry := NewExpiry(rules.pol, steps, clock);
      if expiry.None? {
        var mine := if p.agent in stepBudgets then stepBudgets[p.agent] else map[];
        stepBudgets := stepBudgets[p.agent := mine[Key(p.required) := OrDefault(rules.pol.stepBudget, 10)]];
      } else {
        var list := if p.agent in restricted then restricted[p.agent] else [];
        restricted := restricted[p.agent := list + [Restriction(p.required, expiry.value)]];
      }
    }

    /** From the risk assessment to the restriction, for a proposal authorised from `m`. */
    method Decide(ghost m: Memory, p: Proposal, w: Surroundings) returns (d: Decision)
      requires Valid() && Authorised(rules.pol, rules.cfg, m, p, w) && Now() == Gated(rules, m, p, w)
      requires m.live.Keys == rules.pol.env.ceilings.Keys
      requires w.votes.Some? ==> Quorum.Positive(w.votes.value)
      requires 0.0 < rules.threshold <= 1.0
      modifies this
      ensures Valid()
      ensures d == Settled(rules, m, p, w)
      ensures Now() == Next(rules, m, p, w)
    {
      d := Mapped(rules.pol.requireHumanOn, SignalsOf(rules.cfg.thresholds, w.readings, p.confidence), w.readings.reentry);
      if !w.auditStarts {
        return HUMAN;
      }
      if d == CONTINUE {
        d := Consult(w);
        if d == CONTINUE {
          var ok := Execute(p, w);
          return if ok then CONTINUE else HUMAN;
        }
      }
      if d == RESTRICT {
        Restrict(p, w.laterClock);
      }
    }

    method Evaluate(p: Proposal, w: Surroundings) returns (d: Decision)
      requires Valid()
      requires w.votes.Some? ==> Quorum.Positive(w.votes.value)
      requires 0.0 < rules.threshold <= 1.0
      modifies this
      ensures Valid()
      ensures d == Verdict(rules, old(Now()), p, w)
      ensures Does(rules, old(Now()), Submit(Turn(p, w)), Now())
      ensures Now() == Next(rules, old(Now()), p, w)
    {
      ghost var m := Now();
      var admitted := Admit(p, w);
      if !admitted {
        return HUMAN;
      }
      var authorised := Authorise(m, p, w);
      if !authorised {
        return HUMAN;
      }
      d := Decide(m, p, w);
      if !w.auditCompletes {
        return HUMAN;
      }
    }

    // ---- delegation ----

    /** Identity, roles and containment of an offer, against the delegator's effective authority read afresh. */
    method CheckOffer(from: AgentId, to: AgentId, offered: Grants, clock: real)
      returns (refusal: Option<Refusal>, ghost fromAuth: Grants)
      modifies this`restricted
      ensures refusal == EarlyRefusal(rules.pol.env, from, to, offered, fromAuth)
      ensures KnowsBoth(rules.pol.env, from, to) ==> MayHandOn(old(Now()), from, clock, fromAuth)
      ensures restricted == PrunedBy(rules.pol.env, old(Now()), from, to, clock)
    {
      var env := rules.pol.env;
      fromAuth := NOTHING;
      if from !in env.ceilings {
        return Some(UnknownDelegator), fromAuth;
      }
      if to !in env.ceilings {
        return Some(UnknownRecipient), fromAuth;
      }
      var base, current, active := EffectiveAuthority(from, clock);
      fromAuth := current.Value();
      if !RolesAllow(env, from, to) {
        return Some(RoleViolation), fromAuth;
      }
      var offer := new Authority(offered.permissions, offered.stored);
      var held := offer.IsSubsetOf(current);
      return if held then None else Some(NotHeld), fromAuth;
    }

    /** What the recipient's envelope ceiling leaves of an offer. */
    method ClampFor(to: AgentId, offered: Grants) returns (clamped: Grants)
      requires to in rules.pol.env.ceilings
      ensures IsClamp(offered, rules.pol.env.ceilings[to], clamped)
    {
      var ceiling := rules.pol.env.ceilings[to];
      var offer := new Authority(offered.permissions, offered.stored);
      var most := new Authority(ceiling.permissions, ceiling.stored);
      var added := offer.ClampToCeiling(most);
      clamped := Grants(added.permissions, added.budgetRemaining);
    }

    /** What the recipient is to hold: the clamped offer, alone or merged; none when a merge collides. */
    method Receive(to: AgentId, clamped: Grants, merge: bool) returns (r: Option<Grants>)
      requires to in live
      ensures r == if merge && Collides(live[to], clamped) then None else Some(Received(false, live[to], clamped, merge))
    {
      if !merge {
        return Some(clamped);
      }
      var current := live[to];
      if exists p | p in current.permissions :: exists q | q in clamped.permissions :: Key(p) == Key(q) {
        return None;
      }
      return Some(Merged(current, clamped));
    }

    /**
     The answer is the first check that fails, or success. On success the
     recipient's authority is replaced by, or merged with, the clamped offer; on
     refusal no authority changes.
     */
    method RegisterDelegation(from: AgentId, to: AgentId, offered: Grants, merge: bool, clock: real, auditOk: bool)
      returns (r: Result<(), Refusal>, ghost fromAuth: Grants, ghost clamped: Grants)
      requires Valid()
      modifies this`live, this`restricted
      ensures Valid()
      ensures r == Ruling(rules.pol.env, from, to, offered, fromAuth, AuthorityOf(old(live), to), clamped, merge, auditOk)
      ensures KnowsBoth(rules.pol.env, from, to) ==> MayHandOn(old(Now()), from, clock, fromAuth)
      ensures EarlyRefusal(rules.pol.env, from, to, offered, fromAuth).None? ==>
                IsClamp(offered, rules.pol.env.ceilings[to], clamped)
      ensures r.Ok? ==>
                MovesNow(rules.pol.env, false, old(live),
                         Delegate(from, to, offered, merge, BindingOn(old(Now()), from, clock), fromAuth, clamped), live)
      ensures Does(rules, old(Now()), Offer(from, to, offered, merge, clock, auditOk, fromAuth, clamped), Now())
      ensures r.Err? ==> live == old(live)
      ensures restricted == PrunedBy(rules.pol.env, old(Now()), from, to, clock)
    {
      clamped := NOTHING;
      var refusal, effective := CheckOffer(from, to, offered, clock);
      fromAuth := effective;
      if refusal.Some? {
        return Err(refusal.value), fromAuth, clamped;
      }
      var added := ClampFor(to, offered);
      clamped := added;
      var newAuth := Receive(to, added, merge);
      if newAuth.None? {
        return Err(MergeConflict), fromAuth, clamped;
      }
      if !auditOk {
        return Err(AuditFailed), fromAuth, clamped;
      }
      live := live[to := newAuth.value];
      return Ok(()), fromAuth, clamped;
    }

    /** Back to the envelope ceiling: an administrative act, not a restart. */
    method RevokeDelegation(agent: AgentId) returns (ok: bool)
      requires Valid()
      modifies this`live
      ensures Valid()
      ensures ok == (agent in rules.pol.env.ceilings)
      ensures Does(rules, old(Now()), Reset(agent), Now())
      ensures ok ==> live == old(live)[agent := rules.pol.env.ceilings[agent]]
      ensures ok ==> MovesNow(rules.pol.env, false, old(live), Revoke(agent), live)
      ensures !ok ==> live == old(live)
    {
      if agent !in rules.pol.env.ceilings {
        return false;
      }
      live := live[agent := rules.pol.env.ceilings[agent]];
      return true;
    }
  }
}
