/**
 What the governor without a store decides and does, in terms of the readings,
 the thresholds, the policy and its memory, stage by stage.
 */
module Verdicts {
  import opened Prelude
  import opened Permissions
  import opened Authorities
  import opened Decisions
  import opened Delegation
  import opened Restrictions
  import opened Pipeline
  import Quorum
  import Replay

  // ---- the gates ----

  /** The attempt is admitted: it counts, and it uses up its identifiers. */
  ghost predicate Counts(r: Rules, m: Memory, p: Proposal, w: Surroundings) {
    && w.envelopeIntact && w.wellFormed
    && p.agent in r.pol.env.ceilings
    && (r.pol.allowedActions == None || p.action in r.pol.allowedActions.value)
    && !(r.cfg.dedupeProposalIds && p.id in m.seenIds)
    && !(w.signature == Bad || (w.signature == Absent && r.cfg.requireSignature))
    && !(p.nonce != "" && p.agent + ":" + p.nonce in m.seenNonces)
  }

  /** A restriction imposed on the agent is live at this attempt and `q` covers it. */
  ghost predicate Restricted(m: Memory, p: Proposal, w: Surroundings, q: Permission) {
    exists x :: x in RestrictionsOf(m, p.agent) && IsLive(x.expiry, Moment(m.steps + 1, w.clock)) && Covers(q, x.permission)
  }

  /** The step-budget counter of the requested permission has run out. */
  predicate RunOut(r: Rules, m: Memory, p: Proposal) {
    && r.pol.restrictPolicy == STEP_BUDGET
    && p.agent in m.stepBudgets
    && p.required.name + ":" + p.required.scope in m.stepBudgets[p.agent]
    && m.stepBudgets[p.agent][p.required.name + ":" + p.required.scope] <= 0
  }

  ghost predicate Passes(r: Rules, m: Memory, p: Proposal, w: Surroundings) {
    && Counts(r, m, p, w)
    && m.steps < r.pol.maxFleetSteps
    && (r.cfg.perAgentStepBudget == 0 || StepsOf(m, p.agent) < r.cfg.perAgentStepBudget)
    && w.schemaOk && p.action !in r.pol.hardDenials
    && p.agent in m.live
    && (exists q :: q in m.live[p.agent].permissions && Covers(q, p.required) && !Restricted(m, p, w, q))
    && HasBudget(m.live[p.agent], p.required)
    && !RunOut(r, m, p)
    && w.auditStarts
  }

  lemma CountsExactly(r: Rules, m: Memory, p: Proposal, w: Surroundings)
    ensures Counts(r, m, p, w) <==> Admitted(r.pol, r.cfg, m, p, w)
  {
    assert Replay.CacheKey(p.agent, p.nonce) == p.agent + ":" + p.nonce;
  }

  lemma TouchedExactly(m: Memory, p: Proposal, w: Surroundings, q: Permission)
    ensures Restricted(m, p, w, q) <==> exists a :: a in ActiveAt(m, p.agent, w.clock) && Covers(q, a)
  {
    var list, now := RestrictionsOf(m, p.agent), Moment(m.steps + 1, w.clock);
    if x :| x in list && IsLive(x.expiry, now) && Covers(q, x.permission) {
      assert x.permission in Active(list, now);
    }
    if a :| a in ActiveAt(m, p.agent, w.clock) && Covers(q, a) {
      var i :| 0 <= i < |list| && IsLive(list[i].expiry, now) && list[i].permission == a;
      assert list[i] in list;
    }
  }

  lemma HoldsExactly(m: Memory, p: Proposal, w: Surroundings)
    ensures HoldsPermission(m, p, w) <==>
              && p.agent in m.live
              && (exists q :: q in m.live[p.agent].permissions && Covers(q, p.required) && !Restricted(m, p, w, q))
              && HasBudget(m.live[p.agent], p.required)
  {
    forall q ensures Restricted(m, p, w, q) <==> exists a :: a in ActiveAt(m, p.agent, w.clock) && Covers(q, a) {
      TouchedExactly(m, p, w, q);
    }
    var held, active := AuthorityOf(m.live, p.agent), ActiveAt(m, p.agent, w.clock);
    forall q ensures q in Untouched(held, active) <==> q in held.permissions && !Restricted(m, p, w, q) {}
  }

  /** The gates together are exactly these conditions. */
  lemma PassesExactly(r: Rules, m: Memory, p: Proposal, w: Surroundings)
    ensures Passes(r, m, p, w) <==> Assessable(r, m, p, w)
  {
    CountsExactly(r, m, p, w);
    HoldsExactly(m, p, w);
    assert Key(p.required) == p.required.name + ":" + p.required.scope;
  }

  /** An attempt that does not count changes nothing at all; one that counts is counted whatever is decided. */
  lemma CountedOrUntouched(r: Rules, m: Memory, p: Proposal, w: Surroundings)
    ensures
      var next := Next(r, m, p, w);
      && (!Counts(r, m, p, w) ==> next == m && Verdict(r, m, p, w) == HUMAN)
      && (Counts(r, m, p, w) ==>
            next.steps == m.steps + 1 && next.agentSteps == m.agentSteps[p.agent := StepsOf(m, p.agent) + 1])
  {
    CountsExactly(r, m, p, w);
  }

  /** What two states hold of one agent is the same. */
  predicate SameFor(m: Memory, next: Memory, agent: AgentId) {
    && AuthorityOf(next.live, agent) == AuthorityOf(m.live, agent)
    && RestrictionsOf(next, agent) == RestrictionsOf(m, agent)
    && (agent in next.stepBudgets <==> agent in m.stepBudgets)
    && (agent in m.stepBudgets ==> next.stepBudgets[agent] == m.stepBudgets[agent])
  }

  lemma GatesLeaveOthers(r: Rules, m: Memory, p: Proposal, w: Surroundings, other: AgentId)
    requires other != p.agent
    ensures SameFor(m, Gated(r, m, p, w), other)
  {}

  lemma RestrictingLeavesOthers(pol: Policy, m: Memory, p: Proposal, clock: real, other: AgentId)
    requires other != p.agent
    ensures SameFor(m, Restricting(pol, m, p, clock), other)
  {}

  /** An evaluation for one agent leaves the authority, restrictions and step budgets of every other as they were. */
  lemma OtherAgentsUntouched(r: Rules, m: Memory, p: Proposal, w: Surroundings, other: AgentId)
    requires other != p.agent
    ensures SameFor(m, Next(r, m, p, w), other)
  {
    GatesLeaveOthers(r, m, p, w, other);
    RestrictingLeavesOthers(r.pol, Gated(r, m, p, w), p, w.laterClock, other);
  }

  // ---- the readings ----

  /** The condition on the readings and the confidence under which signal `s` is raised. */
  predicate Raised(t: Thresholds, x: Readings, confidence: real, s: Signal) {
    match s
    case OBJECTIVE_MISMATCH => x.overlap < t.overlapMin
    case LOW_CONFIDENCE => confidence <= t.lowConfidenceMax
    case DRIFT => x.drift > t.driftMax
    case HIGH_DISAGREEMENT => x.consensus < t.peerDisagreementMax
    case ASSUMPTION_ANOMALY => confidence >= t.anomalyConfidenceMin && x.overlap < t.anomalyOverlapMax
    case OBJECTIVE_REENTRY => x.reentry == MEDIUM || x.reentry == HIGH
    case _ => false
  }

  /** The readings alone send the proposal to a human: a signal the policy reserves, or re-entry into a refused objective. */
  ghost predicate Reserved(r: Rules, p: Proposal, w: Surroundings) {
    w.readings.reentry == HIGH
    || exists s :: s in r.pol.requireHumanOn && Raised(r.cfg.thresholds, w.readings, p.confidence, s)
  }

  /** The peers disagree too much, or great confidence meets little overlap. */
  predicate Anomalous(r: Rules, p: Proposal, w: Surroundings) {
    var t, x := r.cfg.thresholds, w.readings;
    x.consensus < t.peerDisagreementMax || (p.confidence >= t.anomalyConfidenceMin && x.overlap < t.anomalyOverlapMax)
  }

  /** Medium re-entry, drift or low confidence. */
  predicate Cautionary(r: Rules, p: Proposal, w: Surroundings) {
    var t, x := r.cfg.thresholds, w.readings;
    x.reentry == MEDIUM || x.drift > t.driftMax || p.confidence <= t.lowConfidenceMax
  }

  lemma RaisedExactly(t: Thresholds, x: Readings, confidence: real, s: Signal)
    ensures s in SignalsOf(t, x, confidence) <==> Raised(t, x, confidence, s)
  {}

  lemma AssessmentExactly(r: Rules, p: Proposal, w: Surroundings)
    ensures Assessed(r.pol, r.cfg, p, w) ==
              if Reserved(r, p, w) then HUMAN
              else if Anomalous(r, p, w) then RECHECK
              else if Cautionary(r, p, w) then RESTRICT
              else CONTINUE
  {
    forall s ensures s in SignalsOf(r.cfg.thresholds, w.readings, p.confidence)
                <==> Raised(r.cfg.thresholds, w.readings, p.confidence, s) {
      RaisedExactly(r.cfg.thresholds, w.readings, p.confidence, s);
    }
    var signals := SignalsOf(r.cfg.thresholds, w.readings, p.confidence);
    assert signals * r.pol.requireHumanOn != {} <==>
           exists s :: s in r.pol.requireHumanOn && Raised(r.cfg.thresholds, w.readings, p.confidence, s) by {
      if s :| s in r.pol.requireHumanOn && Raised(r.cfg.thresholds, w.readings, p.confidence, s) {
        assert s in signals * r.pol.requireHumanOn;
      }
      if s :| s in signals * r.pol.requireHumanOn {
        assert Raised(r.cfg.thresholds, w.readings, p.confidence, s);
      }
    }
  }

  // ---- verdict and effects ----

  ghost predicate NothingExecutedOrSpent(m: Memory, next: Memory) {
    next.executions == m.executions && next.live == m.live
  }

  /** Whatever the gates refuse, and whatever the readings reserve for a human, goes to one, and nothing is executed or spent. */
  lemma ReservedForHumans(r: Rules, m: Memory, p: Proposal, w: Surroundings)
    requires !Passes(r, m, p, w) || Reserved(r, p, w)
    ensures Verdict(r, m, p, w) == HUMAN && NothingExecutedOrSpent(m, Next(r, m, p, w))
  {
    PassesExactly(r, m, p, w);
    AssessmentExactly(r, p, w);
  }

  /** Past the gates, and short of a human: anomalies are rechecked, caution restricts, and nothing is executed or spent. */
  lemma RecheckAndRestrictExactly(r: Rules, m: Memory, p: Proposal, w: Surroundings)
    requires Passes(r, m, p, w) && !Reserved(r, p, w) && w.auditCompletes
    ensures Anomalous(r, p, w) ==> Verdict(r, m, p, w) == RECHECK && NothingExecutedOrSpent(m, Next(r, m, p, w))
    ensures !Anomalous(r, p, w) && Cautionary(r, p, w) ==>
              Verdict(r, m, p, w) == RESTRICT && NothingExecutedOrSpent(m, Next(r, m, p, w))
    ensures !Anomalous(r, p, w) && !Cautionary(r, p, w) ==>
              Verdict(r, m, p, w) == if Quorum.Peers(w.votes, r.threshold, r.humanOnDisagreement) != CONTINUE
                                     then Quorum.Peers(w.votes, r.threshold, r.humanOnDisagreement)
                                     else if w.boundary == NotWired || w.boundary == Accepts then CONTINUE else HUMAN
  {
    PassesExactly(r, m, p, w);
    AssessmentExactly(r, p, w);
  }

  /** Nothing stands in the way of the boundary. */
  ghost predicate Clear(r: Rules, m: Memory, p: Proposal, w: Surroundings) {
    && Passes(r, m, p, w) && !Reserved(r, p, w) && !Anomalous(r, p, w) && !Cautionary(r, p, w)
    && Quorum.Peers(w.votes, r.threshold, r.humanOnDisagreement) == CONTINUE
  }

  /** The boundary is called exactly then, once, when one is wired; and a unit is spent exactly when it accepts or none is. */
  lemma ExecutedAndSpentExactly(r: Rules, m: Memory, p: Proposal, w: Surroundings)
    ensures
      var next := Next(r, m, p, w);
      && next.executions == m.executions + (if Clear(r, m, p, w) && w.boundary != NotWired then 1 else 0)
      && (Clear(r, m, p, w) && (w.boundary == NotWired || w.boundary == Accepts) ==>
            p.agent in m.live && next.live == m.live[p.agent := Consume(m.live[p.agent], p.required, 1)])
      && (!(Clear(r, m, p, w) && (w.boundary == NotWired || w.boundary == Accepts)) ==> next.live == m.live)
  {
    PassesExactly(r, m, p, w);
    AssessmentExactly(r, p, w);
  }

  /** Too little overlap under the default policy goes to a human, however calm every other reading is. */
  lemma MismatchGoesToAHuman(r: Rules, m: Memory, p: Proposal, w: Surroundings)
    requires r.pol.requireHumanOn == {AUTHORITY_ABUSE, OBJECTIVE_MISMATCH}
    requires w.readings.overlap < r.cfg.thresholds.overlapMin
    ensures Verdict(r, m, p, w) == HUMAN && NothingExecutedOrSpent(m, Next(r, m, p, w))
  {
    assert Raised(r.cfg.thresholds, w.readings, p.confidence, OBJECTIVE_MISMATCH);
    ReservedForHumans(r, m, p, w);
  }
}
