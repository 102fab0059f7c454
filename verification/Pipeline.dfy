/**
 The gates of one evaluation, stated apart from the order in which the governor
 runs them, and what follows from them.
 */
module Pipeline {
  import opened Prelude
  import opened Permissions
  import opened Authorities
  import opened Decisions
  import opened Delegation
  import opened Restrictions
  import Replay
  import Quorum

  // ---- contextual risk ----

  datatype Level = LOW | MEDIUM | HIGH

  /** What the similarity engine and the intent graph report; arbitrary numbers here. */
  datatype Readings = Readings(overlap: real, drift: real, consensus: real, reentry: Level)

  datatype Thresholds = Thresholds(
    overlapMin: real, lowConfidenceMax: real, driftMax: real, peerDisagreementMax: real,
    anomalyConfidenceMin: real, anomalyOverlapMax: real)

  function SignalsOf(t: Thresholds, r: Readings, confidence: real): set<Signal> {
    (if r.overlap < t.overlapMin then {OBJECTIVE_MISMATCH} else {})
    + (if confidence <= t.lowConfidenceMax then {LOW_CONFIDENCE} else {})
    + (if r.drift > t.driftMax then {DRIFT} else {})
    + (if r.consensus < t.peerDisagreementMax then {HIGH_DISAGREEMENT} else {})
    + (if confidence >= t.anomalyConfidenceMin && r.overlap < t.anomalyOverlapMax then {ASSUMPTION_ANOMALY} else {})
    + (if r.reentry != LOW then {OBJECTIVE_REENTRY} else {})
  }

  function Mapped(requireHumanOn: set<Signal>, signals: set<Signal>, reentry: Level): Decision {
    if signals * requireHumanOn != {} then HUMAN
    else if reentry == HIGH then HUMAN
    else if HIGH_DISAGREEMENT in signals || ASSUMPTION_ANOMALY in signals then RECHECK
    else if reentry == MEDIUM || DRIFT in signals || LOW_CONFIDENCE in signals then RESTRICT
    else CONTINUE
  }

  predicate LevelLeq(a: Level, b: Level) {
    a == LOW || b == HIGH || a == b
  }

  /** More signals, or a higher re-entry level, never map to a laxer decision. */
  lemma MappedMonotone(req: set<Signal>, few: set<Signal>, many: set<Signal>, low: Level, high: Level)
    requires few <= many && LevelLeq(low, high)
    ensures Strictness(Mapped(req, few, low)) <= Strictness(Mapped(req, many, high))
  {}

  /** Less overlap, more drift, less consensus or a higher re-entry level never map to a laxer decision. */
  lemma RiskierReadingsMapStricter(t: Thresholds, req: set<Signal>, safe: Readings, risky: Readings, confidence: real)
    requires risky.overlap <= safe.overlap && safe.drift <= risky.drift && risky.consensus <= safe.consensus
    requires LevelLeq(safe.reentry, risky.reentry)
    ensures Strictness(Mapped(req, SignalsOf(t, safe, confidence), safe.reentry))
         <= Strictness(Mapped(req, SignalsOf(t, risky, confidence), risky.reentry))
  {}

  // ---- policy, configuration, proposals ----

  datatype RestrictPolicy = TTL_STEPS | TTL_WALLCLOCK | STEP_BUDGET | HUMAN_ONLY

  datatype Policy = Policy(
    env: Envelope,
    allowedActions: Option<set<string>>,
    hardDenials: set<string>,
    maxFleetSteps: int,
    requireHumanOn: set<Signal>,
    restrictPolicy: RestrictPolicy,
    ttlSteps: Option<int>,
    ttlSeconds: Option<real>,
    stepBudget: Option<int>)

  datatype Config = Config(
    thresholds: Thresholds, requireSignature: bool, dedupeProposalIds: bool, perAgentStepBudget: nat, caps: Replay.Caps)

  datatype Proposal = Proposal(
    id: string, agent: AgentId, action: string, required: Permission, confidence: real, nonce: string)

  datatype Signature = Absent | Genuine | Bad

  datatype Boundary = NotWired | Accepts | Rejects | Raises

  /** Everything one evaluation learns from outside the governor. */
  datatype Surroundings = Surroundings(
    envelopeIntact: bool, wellFormed: bool, signature: Signature, schemaOk: bool,
    clock: real, laterClock: real, readings: Readings,
    auditStarts: bool, auditCompletes: bool,
    votes: Option<seq<Quorum.Vote>>, boundary: Boundary)

  /** The governor's own state when no store is wired in. `executions` counts calls of the boundary. */
  datatype Memory = Memory(
    live: Live,
    restricted: map<AgentId, seq<Restriction>>,
    stepBudgets: map<AgentId, map<string, int>>,
    seenNonces: seq<string>,
    seenIds: seq<string>,
    steps: int,
    agentSteps: map<AgentId, int>,
    executions: nat)

  function StepsOf(m: Memory, agent: AgentId): int {
    if agent in m.agentSteps then m.agentSteps[agent] else 0
  }

  function RestrictionsOf(m: Memory, agent: AgentId): seq<Restriction> {
    if agent in m.restricted then m.restricted[agent] else []
  }

  // ---- the gates ----

  /** Envelope, structure, identity, signature and replay: passing them makes the attempt count. */
  predicate Admitted(pol: Policy, cfg: Config, m: Memory, p: Proposal, w: Surroundings) {
    && w.envelopeIntact && w.wellFormed
    && p.agent in pol.env.ceilings
    && (pol.allowedActions.Some? ==> p.action in pol.allowedActions.value)
    && (cfg.dedupeProposalIds ==> p.id !in m.seenIds)
    && w.signature != Bad
    && (w.signature == Absent ==> !cfg.requireSignature)
    && (p.nonce != "" ==> Replay.Fresh(m.seenNonces, Replay.CacheKey(p.agent, p.nonce)))
  }

  predicate WithinSteps(pol: Policy, cfg: Config, m: Memory, p: Proposal) {
    && m.steps + 1 <= pol.maxFleetSteps
    && (cfg.perAgentStepBudget != 0 ==> StepsOf(m, p.agent) + 1 <= cfg.perAgentStepBudget)
  }

  function ActiveAt(m: Memory, agent: AgentId, clock: real): set<Permission> {
    Active(RestrictionsOf(m, agent), Moment(m.steps + 1, clock))
  }

  /** Reaching the authority read: the attempt counted, within the step budgets, and the action is not ruled out. */
  predicate ReadsAuthority(pol: Policy, cfg: Config, m: Memory, p: Proposal, w: Surroundings) {
    Admitted(pol, cfg, m, p, w) && WithinSteps(pol, cfg, m, p) && w.schemaOk && p.action !in pol.hardDenials
  }

  /** Some held permission answers the request free of active restrictions, and there is budget left for it. */
  ghost predicate Holds(held: Grants, active: set<Permission>, required: Permission) {
    && (exists q :: q in Untouched(held, active) && Covers(q, required))
    && HasBudget(held, required)
  }

  ghost predicate HoldsPermission(m: Memory, p: Proposal, w: Surroundings) {
    Holds(AuthorityOf(m.live, p.agent), ActiveAt(m, p.agent, w.clock), p.required)
  }

  ghost predicate ReachesStepBudget(pol: Policy, cfg: Config, m: Memory, p: Proposal, w: Surroundings) {
    ReadsAuthority(pol, cfg, m, p, w) && HoldsPermission(m, p, w)
  }

  /** The counter a step-budget restriction left for this permission, if any. */
  function StepBudgetOf(pol: Policy, m: Memory, p: Proposal): Option<int> {
    if pol.restrictPolicy == STEP_BUDGET && p.agent in m.stepBudgets && Key(p.required) in m.stepBudgets[p.agent]
    then Some(m.stepBudgets[p.agent][Key(p.required)]) else None
  }

  ghost predicate Authorised(pol: Policy, cfg: Config, m: Memory, p: Proposal, w: Surroundings) {
    && ReachesStepBudget(pol, cfg, m, p, w)
    && (StepBudgetOf(pol, m, p).Some? ==> StepBudgetOf(pol, m, p).value > 0)
  }

  function Assessed(pol: Policy, cfg: Config, p: Proposal, w: Surroundings): Decision {
    Mapped(pol.requireHumanOn, SignalsOf(cfg.thresholds, w.readings, p.confidence), w.readings.reentry)
  }

  datatype Rules = Rules(pol: Policy, cfg: Config, threshold: real, humanOnDisagreement: bool)

  ghost predicate Assessable(r: Rules, m: Memory, p: Proposal, w: Surroundings) {
    Authorised(r.pol, r.cfg, m, p, w) && w.auditStarts
  }

  /** Everything that must have agreed before the boundary may be called. */
  ghost predicate MayExecute(r: Rules, m: Memory, p: Proposal, w: Surroundings) {
    && Assessable(r, m, p, w)
    && Assessed(r.pol, r.cfg, p, w) == CONTINUE
    && Quorum.Peers(w.votes, r.threshold, r.humanOnDisagreement) == CONTINUE
  }

  ghost predicate Spends(r: Rules, m: Memory, p: Proposal, w: Surroundings) {
    MayExecute(r, m, p, w) && (w.boundary == NotWired || w.boundary == Accepts)
  }

  /** The decision after the boundary and before the final audit record. */
  ghost function Settled(r: Rules, m: Memory, p: Proposal, w: Surroundings): Decision {
    if !Assessable(r, m, p, w) then HUMAN
    else if Assessed(r.pol, r.cfg, p, w) != CONTINUE then Assessed(r.pol, r.cfg, p, w)
    else if Quorum.Peers(w.votes, r.threshold, r.humanOnDisagreement) != CONTINUE then
      Quorum.Peers(w.votes, r.threshold, r.humanOnDisagreement)
    else if Spends(r, m, p, w) then CONTINUE
    else HUMAN
  }

  ghost function Verdict(r: Rules, m: Memory, p: Proposal, w: Surroundings): Decision {
    if w.auditCompletes then Settled(r, m, p, w) else HUMAN
  }

  // ---- what one evaluation leaves behind ----

  datatype Turn = Turn(p: Proposal, w: Surroundings)

  ghost function LiveAfter(r: Rules, m: Memory, t: Turn): Live {
    if Spends(r, m, t.p, t.w) then
      m.live[t.p.agent := Consume(AuthorityOf(m.live, t.p.agent), t.p.required, 1)]
    else m.live
  }

  /** An admitted attempt is counted and its identifiers are consumed, whatever is decided later. */
  function Counted(cfg: Config, m: Memory, p: Proposal): Memory {
    m.(steps := m.steps + 1,
       agentSteps := m.agentSteps[p.agent := StepsOf(m, p.agent) + 1],
       seenNonces := if p.nonce == "" then m.seenNonces
                     else Replay.Remembered(m.seenNonces, Replay.CacheKey(p.agent, p.nonce), cfg.caps.nonces),
       seenIds := if cfg.dedupeProposalIds then Replay.Remembered(m.seenIds, p.id, cfg.caps.proposals) else m.seenIds)
  }

  /** A list is pruned whenever it is read; an agent without a list gets none. */
  function PrunedFor(restricted: map<AgentId, seq<Restriction>>, agent: AgentId, now: Moment): map<AgentId, seq<Restriction>> {
    if agent in restricted then restricted[agent := Pruned(restricted[agent], now)] else restricted
  }

  /** Passing the step-budget gate uses up one unit; an exhausted counter is dropped. */
  function StepBudgetUsed(pol: Policy, m: Memory, p: Proposal): map<AgentId, map<string, int>> {
    var left := StepBudgetOf(pol, m, p);
    if left.None? then m.stepBudgets
    else
      var mine := m.stepBudgets[p.agent];
      m.stepBudgets[p.agent := if left.value <= 0 then mine - {Key(p.required)} else mine[Key(p.required) := left.value - 1]]
  }

  function OrDefault(v: Option<int>, default: int): int {
    if v.None? || v.value == 0 then default else v.value
  }

  function OrDefaultReal(v: Option<real>, default: real): real {
    if v.None? || v.value == 0.0 then default else v.value
  }

  /** None for the step-budget policy, which has no expiry. */
  function NewExpiry(pol: Policy, step: int, clock: real): Option<Expiry> {
    match pol.restrictPolicy
    case TTL_STEPS => Some(Steps(step + OrDefault(pol.ttlSteps, 3)))
    case TTL_WALLCLOCK => Some(Wall(clock + OrDefaultReal(pol.ttlSeconds, 60.0)))
    case HUMAN_ONLY => Some(Human)
    case STEP_BUDGET => None
  }

  /** Records a restriction on the requested permission. */
  function Restricting(pol: Policy, m: Memory, p: Proposal, clock: real): Memory {
    var expiry := NewExpiry(pol, m.steps, clock);
    if expiry.None? then
      var mine := if p.agent in m.stepBudgets then m.stepBudgets[p.agent] else map[];
      m.(stepBudgets := m.stepBudgets[p.agent := mine[Key(p.required) := OrDefault(pol.stepBudget, 10)]])
    else
      m.(restricted := m.restricted[p.agent := RestrictionsOf(m, p.agent) + [Restriction(p.required, expiry.value)]])
  }

  /** The state after the gates, before anything is executed. */
  ghost function Gated(r: Rules, m: Memory, p: Proposal, w: Surroundings): Memory {
    if !Admitted(r.pol, r.cfg, m, p, w) then m
    else
      var counted := Counted(r.cfg, m, p);
      counted.(
        restricted := if ReadsAuthority(r.pol, r.cfg, m, p, w)
                      then PrunedFor(m.restricted, p.agent, Moment(m.steps + 1, w.clock)) else m.restricted,
        stepBudgets := if ReachesStepBudget(r.pol, r.cfg, m, p, w) then StepBudgetUsed(r.pol, m, p) else m.stepBudgets)
  }

  /** The whole new state. Only a spend touches authority; only a restriction adds one. */
  ghost function Next(r: Rules, m: Memory, p: Proposal, w: Surroundings): Memory {
    var gated := Gated(r, m, p, w);
    if Settled(r, m, p, w) == RESTRICT then Restricting(r.pol, gated, p, w.laterClock)
    else gated.(
      live := LiveAfter(r, m, Turn(p, w)),
      executions := if MayExecute(r, m, p, w) && w.boundary != NotWired then m.executions + 1 else m.executions)
  }

  // ---- what the verdict guarantees ----

  /** A proposal continues exactly when every gate, the peers and the boundary agreed and both records were written. */
  lemma ContinueExactly(r: Rules, m: Memory, p: Proposal, w: Surroundings)
    ensures Verdict(r, m, p, w) == CONTINUE <==>
              && Admitted(r.pol, r.cfg, m, p, w) && Authorised(r.pol, r.cfg, m, p, w)
              && w.auditStarts && w.auditCompletes
              && Assessed(r.pol, r.cfg, p, w) == CONTINUE
              && Quorum.Peers(w.votes, r.threshold, r.humanOnDisagreement) == CONTINUE
              && (w.boundary == NotWired || w.boundary == Accepts)
  {}

  /** No stage after the risk assessment lowers its strictness. */
  lemma StrictnessOnlyRises(r: Rules, m: Memory, p: Proposal, w: Surroundings)
    ensures Strictness(Verdict(r, m, p, w)) >= Strictness(Assessed(r.pol, r.cfg, p, w))
    ensures Verdict(r, m, p, w) == Settled(r, m, p, w) || Verdict(r, m, p, w) == HUMAN
  {}

  /** The boundary is called at most once, and only after every gate, the assessment and the peers agreed. */
  lemma OneGuardedExecution(r: Rules, m: Memory, p: Proposal, w: Surroundings)
    ensures m.executions <= Next(r, m, p, w).executions <= m.executions + 1
    ensures Next(r, m, p, w).executions > m.executions ==>
              && Admitted(r.pol, r.cfg, m, p, w) && Authorised(r.pol, r.cfg, m, p, w) && w.auditStarts
              && Assessed(r.pol, r.cfg, p, w) == CONTINUE
              && Quorum.Peers(w.votes, r.threshold, r.humanOnDisagreement) == CONTINUE
  {}

  /** A HUMAN vote keeps the boundary from being called. */
  lemma VetoPrecedesExecution(r: Rules, m: Memory, p: Proposal, w: Surroundings)
    requires w.votes.Some? && Quorum.SomeFor(w.votes.value, HUMAN)
    ensures !MayExecute(r, m, p, w) && Verdict(r, m, p, w) != CONTINUE
  {}

  /** A live restriction on anything the request covers sends the proposal to a human, whatever else holds. */
  lemma RestrictedNeverContinues(r: Rules, m: Memory, p: Proposal, w: Surroundings, a: Permission)
    requires a in ActiveAt(m, p.agent, w.clock) && Covers(p.required, a)
    ensures Verdict(r, m, p, w) == HUMAN
  {
    forall q | q in Untouched(AuthorityOf(m.live, p.agent), ActiveAt(m, p.agent, w.clock)) ensures !Covers(q, p.required) {
      if Covers(q, p.required) {
        CoversTransitive(q, p.required, a);
      }
    }
  }

  /** A spend that is due always succeeds: the budget checked at the gate is still there. */
  lemma DueSpendSucceeds(r: Rules, m: Memory, p: Proposal, w: Surroundings)
    requires Spends(r, m, p, w)
    ensures CanConsume(AuthorityOf(m.live, p.agent), p.required, 1)
  {}

  // ---- conservation over a run of evaluations ----

  ghost predicate IsEvaluationRun(r: Rules, states: seq<Memory>, turns: seq<Turn>) {
    && |states| == |turns| + 1
    && forall i :: 0 <= i < |turns| ==> states[i + 1] == Next(r, states[i], turns[i].p, turns[i].w)
  }

  // ---- which permission is charged ----

  /**
   The unit is taken from the permission that governs the request in the
   unrestricted authority. That is the one that governs it among the unrestricted
   permissions exactly when no active restriction touches it.
   */
  lemma ChargedGovernsExactly(held: Grants, active: set<Permission>, required: Permission)
    requires Holds(held, active, required)
    ensures
      var charged := Match(held.permissions, required);
      && charged.Some?
      && (Match(Untouched(held, active), required) == charged <==> forall a :: a in active ==> !Covers(charged.value, a))
  {
    var charged := Match(held.permissions, required).value;
    if forall a :: a in active ==> !Covers(charged, a) {
      MatchIs(Untouched(held, active), required, charged);
    }
  }

  /** When one does, a request can be paid from a restricted permission while the one that answers it is used up. */
  lemma RestrictedPermissionIsCharged()
    ensures
      var wild, own := Permission("read", WILDCARD, Some(2)), Permission("read", "x", Some(3));
      var held := Grants({wild, own}, map[Key(own) := 0]);
      var active, required := {Permission("read", "y", None)}, Permission("read", "x", None);
      && Holds(held, active, required)
      && Match(held.permissions, required) == Some(wild)
      && Untouched(held, active) == {own}
      && !HasBudget(Grants(Untouched(held, active), held.stored), required)
  {
    var wild, own := Permission("read", WILDCARD, Some(2)), Permission("read", "x", Some(3));
    var held := Grants({wild, own}, map[Key(own) := 0]);
    var active, required := {Permission("read", "y", None)}, Permission("read", "x", None);
    SortsBeforeTotal(wild, wild);
    SortsBeforeTotal(own, own);
    MatchIs(held.permissions, required, wild);
    assert Untouched(held, active) == {own};
    MatchIs({own}, required, own);
    assert Key(wild)[|Key(wild)| - 1] == '*' && Key(own)[|Key(own)| - 1] == 'x';
  }

  /** Only the spend of step 17 touches live authority. */
  lemma OnlySpendingTouchesAuthority(r: Rules, m: Memory, t: Turn)
    ensures Next(r, m, t.p, t.w).live == LiveAfter(r, m, t)
  {}

  /** What an evaluation does to live authority is nothing, or a spending move of the delegation machine. */
  lemma EvaluationIsASpend(r: Rules, m: Memory, t: Turn)
    ensures
      var next, g := LiveAfter(r, m, t), Match(AuthorityOf(m.live, t.p.agent).permissions, t.p.required);
      next == m.live || (g.Some? && MovesNow(r.pol.env, false, m.live, Spend(t.p.agent, g.value, 1), next))
  {
    if Spends(r, m, t.p, t.w) {
      assert t.p.agent in m.live;
      ConsumingIsASpend(r.pol.env, false, m.live, t.p.agent, t.p.required, 1);
    }
  }

  /** Turn `t` pays one unit from the counter stored under `key` of `agent`. */
  ghost predicate Pays(r: Rules, m: Memory, t: Turn, agent: AgentId, key: string) {
    && Spends(r, m, t.p, t.w)
    && t.p.agent == agent
    && var g := Match(AuthorityOf(m.live, agent).permissions, t.p.required);
       g.Some? && g.value.maxBudget.Some? && Key(g.value) == key
  }

  ghost function Paid(r: Rules, states: seq<Memory>, turns: seq<Turn>, agent: AgentId, key: string): nat
    requires |states| == |turns| + 1
  {
    if turns == [] then 0
    else
      var n := |turns| - 1;
      Paid(r, states[..n + 1], turns[..n], agent, key) + (if Pays(r, states[n], turns[n], agent, key) then 1 else 0)
  }

  /** The counter of `p` is shared only with permissions that agree on where it starts. */
  ghost predicate CounterWellDefined(g: Grants, p: Permission) {
    && p in g.permissions && p.maxBudget.Some?
    && (Key(p) in g.stored || forall q :: q in g.permissions && Key(q) == Key(p) && q.maxBudget.Some? ==> q.maxBudget == p.maxBudget)
  }

  lemma OneTurnConserves(r: Rules, m: Memory, t: Turn, agent: AgentId, p: Permission)
    requires agent in m.live && CounterWellDefined(m.live[agent], p)
    ensures
      var after := LiveAfter(r, m, t);
      && agent in after
      && CounterWellDefined(after[agent], p)
      && Remaining(p, after[agent].stored) + (if Pays(r, m, t, agent, Key(p)) then 1 else 0) == Remaining(p, m.live[agent].stored)
      && (Remaining(p, m.live[agent].stored) >= 0 ==> Remaining(p, after[agent].stored) >= 0)
  {}

  /** Over any run of evaluations, what was paid from a counter and what is left of it add up to what there was. */
  lemma {:induction false} SpendsPlusRemainingConstant(
      r: Rules, states: seq<Memory>, turns: seq<Turn>, agent: AgentId, p: Permission)
    requires IsEvaluationRun(r, states, turns)
    requires agent in states[0].live && CounterWellDefined(states[0].live[agent], p)
    ensures
      var last := states[|turns|].live;
      && agent in last && CounterWellDefined(last[agent], p)
      && Remaining(p, last[agent].stored) + Paid(r, states, turns, agent, Key(p)) == Remaining(p, states[0].live[agent].stored)
      && (Remaining(p, states[0].live[agent].stored) >= 0 ==> Remaining(p, last[agent].stored) >= 0)
    decreases |turns|
  {
    if turns != [] {
      var n := |turns| - 1;
      SpendsPlusRemainingConstant(r, states[..n + 1], turns[..n], agent, p);
      OnlySpendingTouchesAuthority(r, states[n], turns[n]);
      OneTurnConserves(r, states[n], turns[n], agent, p);
    }
  }
}
