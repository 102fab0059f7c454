/** Runs of a governor without a store: evaluations, delegations and revocations in any order. */
module GovernorRuns {
  import opened Prelude
  import opened Permissions
  import opened Authorities
  import opened Decisions
  import opened Delegation
  import opened Restrictions
  import opened Pipeline

  /** One call. A delegation carries what it computed: an effective authority and a clamp of the offer. */
  datatype Call =
    | Submit(t: Turn)
    | Offer(from: AgentId, to: AgentId, offered: Grants, merge: bool, clock: real, auditOk: bool, fromAuth: Grants, clamped: Grants)
    | Reset(agent: AgentId)

  predicate KnowsBoth(env: Envelope, from: AgentId, to: AgentId) {
    from in env.ceilings && to in env.ceilings
  }

  /** The restrictions that bind a delegator in state `m`. */
  function BindingOn(m: Memory, agent: AgentId, clock: real): set<Permission> {
    Active(RestrictionsOf(m, agent), Moment(m.steps, clock))
  }

  /** The authority a delegator may hand on in state `m`, one of those a reduction may leave. */
  ghost predicate MayHandOn(m: Memory, agent: AgentId, clock: real, fromAuth: Grants) {
    IsEffective(AuthorityOf(m.live, agent), BindingOn(m, agent, clock), fromAuth)
  }

  /** Reading a known delegator's authority prunes its restrictions. */
  function PrunedBy(env: Envelope, m: Memory, from: AgentId, to: AgentId, clock: real): map<AgentId, seq<Restriction>> {
    if KnowsBoth(env, from, to) then PrunedFor(m.restricted, from, Moment(m.steps, clock)) else m.restricted
  }

  ghost function Answer(env: Envelope, m: Memory, c: Call): Result<(), Refusal>
    requires c.Offer?
  {
    Ruling(env, c.from, c.to, c.offered, c.fromAuth, AuthorityOf(m.live, c.to), c.clamped, c.merge, c.auditOk)
  }

  /** Call `c` takes the governor from `m` to `next`. */
  ghost predicate Does(r: Rules, m: Memory, c: Call, next: Memory) {
    match c
    case Submit(t) => next == Next(r, m, t.p, t.w)
    case Offer(from, to, offered, merge, clock, auditOk, fromAuth, clamped) =>
      && (KnowsBoth(r.pol.env, from, to) ==> MayHandOn(m, from, clock, fromAuth))
      && (EarlyRefusal(r.pol.env, from, to, offered, fromAuth).None? ==> IsClamp(offered, r.pol.env.ceilings[to], clamped))
      && next == m.(
           live := if Answer(r.pol.env, m, c).Ok? then m.live[to := Received(false, AuthorityOf(m.live, to), clamped, merge)]
                   else m.live,
           restricted := PrunedBy(r.pol.env, m, from, to, clock))
    case Reset(agent) =>
      next == if agent in r.pol.env.ceilings then m.(live := m.live[agent := r.pol.env.ceilings[agent]]) else m
  }

  ghost predicate IsCallRun(r: Rules, states: seq<Memory>, calls: seq<Call>) {
    |states| == |calls| + 1 && forall i :: 0 <= i < |calls| ==> Does(r, states[i], calls[i], states[i + 1])
  }

  /** What any call does to live authority is nothing, or a move of the delegation machine. */
  lemma EveryCallIsAMove(r: Rules, m: Memory, c: Call, next: Memory)
    requires Does(r, m, c, next)
    ensures next.live == m.live || exists move :: MovesNow(r.pol.env, false, m.live, move, next.live)
  {
    match c
    case Submit(t) =>
      EvaluationIsASpend(r, m, t);
      OnlySpendingTouchesAuthority(r, m, t);
    case Offer(from, to, offered, merge, clock, _, fromAuth, clamped) =>
      if Answer(r.pol.env, m, c).Ok? {
        assert MovesNow(r.pol.env, false, m.live,
                        Delegate(from, to, offered, merge, BindingOn(m, from, clock), fromAuth, clamped), next.live);
      }
    case Reset(agent) =>
      if agent in r.pol.env.ceilings {
        assert MovesNow(r.pol.env, false, m.live, Revoke(agent), next.live);
      }
  }

  // ---- a restriction over a run ----

  /** Call `c` reads the restrictions of `agent`, and does so no later than `clock`. */
  predicate ReadsBy(c: Call, agent: AgentId, clock: real) {
    match c
    case Submit(t) => t.p.agent == agent ==> t.w.clock <= clock
    case Offer(from, _, _, _, at, _, _, _) => from == agent ==> at <= clock
    case Reset(_) => true
  }

  /** No clock reading of the restrictions of `agent` after call `i` and before call `j` lies after `clock`. */
  predicate ClockHeld(calls: seq<Call>, agent: AgentId, i: nat, j: nat, clock: real)
    requires j < |calls|
  {
    forall k :: i < k < j ==> ReadsBy(calls[k], agent, clock)
  }

  lemma OnlyAdmissionCounts(r: Rules, m: Memory, t: Turn, next: Memory)
    requires next == Next(r, m, t.p, t.w)
    ensures next.steps == m.steps + (if Admitted(r.pol, r.cfg, m, t.p, t.w) then 1 else 0)
  {}

  lemma CallNeverGoesBack(r: Rules, m: Memory, c: Call, next: Memory)
    requires Does(r, m, c, next)
    ensures m.steps <= next.steps
  {
    if c.Submit? {
      OnlyAdmissionCounts(r, m, c.t, next);
    }
  }

  lemma StepsNeverGoBack(r: Rules, states: seq<Memory>, calls: seq<Call>, i: nat, j: nat)
    requires IsCallRun(r, states, calls) && i <= j <= |calls|
    ensures states[i].steps <= states[j].steps
  {
    for k := i to j
      invariant states[i].steps <= states[k].steps
    {
      CallNeverGoesBack(r, states[k], calls[k], states[k + 1]);
    }
  }

  lemma {:induction false} PrunedKeepsLive(rs: seq<Restriction>, x: Restriction, at: Moment)
    requires x in rs && IsLive(x.expiry, at)
    ensures x in Pruned(rs, at)
  {
    var n := |rs| - 1;
    if rs[n] != x {
      assert rs == rs[..n] + [rs[n]];
      PrunedKeepsLive(rs[..n], x, at);
    }
  }

  /** Imposing a restriction drops none. */
  lemma ImposingKeeps(r: Rules, m: Memory, t: Turn, next: Memory, agent: AgentId, x: Restriction)
    requires next == Next(r, m, t.p, t.w) && x in RestrictionsOf(Gated(r, m, t.p, t.w), agent)
    ensures x in RestrictionsOf(next, agent)
  {}

  /** The gates prune the agent's own list, by the clock this evaluation read. */
  lemma GatesKeepLive(r: Rules, m: Memory, t: Turn, agent: AgentId, x: Restriction)
    requires x in RestrictionsOf(m, agent)
    requires t.p.agent == agent ==> IsLive(x.expiry, Moment(m.steps + 1, t.w.clock))
    ensures x in RestrictionsOf(Gated(r, m, t.p, t.w), agent)
  {
    if t.p.agent == agent {
      PrunedKeepsLive(RestrictionsOf(m, agent), x, Moment(m.steps + 1, t.w.clock));
    }
  }

  /** An evaluation whose clock reading is no later than a moment drops nothing that is live then. */
  lemma TurnKeepsRestriction(r: Rules, m: Memory, t: Turn, next: Memory, agent: AgentId, x: Restriction, now: Moment)
    requires next == Next(r, m, t.p, t.w) && x in RestrictionsOf(m, agent) && IsLive(x.expiry, now)
    requires t.p.agent == agent ==> m.steps + 1 <= now.step && t.w.clock <= now.clock
    ensures x in RestrictionsOf(next, agent)
  {
    GatesKeepLive(r, m, t, agent, x);
    ImposingKeeps(r, m, t, next, agent, x);
  }

  lemma CallKeepsRestriction(r: Rules, m: Memory, c: Call, next: Memory, agent: AgentId, x: Restriction, now: Moment)
    requires Does(r, m, c, next) && x in RestrictionsOf(m, agent) && IsLive(x.expiry, now)
    requires m.steps <= now.step && (c.Submit? && c.t.p.agent == agent ==> m.steps + 1 <= now.step)
    requires ReadsBy(c, agent, now.clock)
    ensures x in RestrictionsOf(next, agent)
  {
    match c
    case Submit(t) => TurnKeepsRestriction(r, m, t, next, agent, x, now);
    case Offer(from, _, _, _, clock, _, _, _) =>
      if from == agent {
        PrunedKeepsLive(RestrictionsOf(m, agent), x, Moment(m.steps, clock));
      }
    case Reset(_) =>
  }

  lemma RestrictionStays(r: Rules, states: seq<Memory>, calls: seq<Call>, i: nat, j: nat, agent: AgentId, x: Restriction, now: Moment)
    requires IsCallRun(r, states, calls) && i < j < |calls|
    requires x in RestrictionsOf(states[i + 1], agent)
    requires now.step == states[j].steps + 1 && IsLive(x.expiry, now) && ClockHeld(calls, agent, i, j, now.clock)
    ensures x in RestrictionsOf(states[j], agent)
  {
    for k := i + 1 to j
      invariant x in RestrictionsOf(states[k], agent)
    {
      StepsNeverGoBack(r, states, calls, k, j);
      assert ReadsBy(calls[k], agent, now.clock);
      CallKeepsRestriction(r, states[k], calls[k], states[k + 1], agent, x, now);
    }
  }

  /** The restriction that a turn ending with RESTRICT imposes, when the policy gives it an expiry. */
  function Imposed(r: Rules, m: Memory, t: Turn): Restriction
    requires r.pol.restrictPolicy != STEP_BUDGET
  {
    Restriction(t.p.required, NewExpiry(r.pol, m.steps + 1, t.w.laterClock).value)
  }

  /**
   Over any run of evaluations, delegations and revocations, a restriction
   imposed by one evaluation sends every later request of that agent that covers
   it to a human for as long as it is live, unless a clock reading in between
   lay after the one that finds it live.
   */
  lemma RestrictionBlocksWhileLive(r: Rules, states: seq<Memory>, calls: seq<Call>, i: nat, j: nat)
    requires IsCallRun(r, states, calls) && i < j < |calls| && calls[i].Submit? && calls[j].Submit?
    requires Settled(r, states[i], calls[i].t.p, calls[i].t.w) == RESTRICT && r.pol.restrictPolicy != STEP_BUDGET
    requires calls[j].t.p.agent == calls[i].t.p.agent && Covers(calls[j].t.p.required, calls[i].t.p.required)
    requires IsLive(Imposed(r, states[i], calls[i].t).expiry, Moment(states[j].steps + 1, calls[j].t.w.clock))
    requires ClockHeld(calls, calls[i].t.p.agent, i, j, calls[j].t.w.clock)
    ensures Verdict(r, states[j], calls[j].t.p, calls[j].t.w) == HUMAN
  {
    var t, later, x := calls[i].t, calls[j].t, Imposed(r, states[i], calls[i].t);
    RestrictionIsRecorded(r, states[i], t, states[i + 1]);
    RestrictionStays(r, states, calls, i, j, t.p.agent, x, Moment(states[j].steps + 1, later.w.clock));
    assert t.p.required in ActiveAt(states[j], t.p.agent, later.w.clock);
    RestrictedNeverContinues(r, states[j], later.p, later.w, t.p.required);
  }

  lemma RestrictionIsRecorded(r: Rules, m: Memory, t: Turn, next: Memory)
    requires next == Next(r, m, t.p, t.w) && Settled(r, m, t.p, t.w) == RESTRICT && r.pol.restrictPolicy != STEP_BUDGET
    ensures Imposed(r, m, t) in RestrictionsOf(next, t.p.agent)
  {
    var list := RestrictionsOf(next, t.p.agent);
    assert list[|list| - 1] == Imposed(r, m, t);
  }

  // ---- step budgets over a run ----

  ghost predicate WithinStepBudget(r: Rules, m: Memory) {
    && m.executions <= m.steps
    && m.executions <= Max(0, r.pol.maxFleetSteps)
  }

  lemma TurnWithinStepBudget(r: Rules, m: Memory, t: Turn)
    requires WithinStepBudget(r, m)
    ensures WithinStepBudget(r, Next(r, m, t.p, t.w))
  {}

  /** However many calls are made, the boundary is called at most as often as the fleet has steps. */
  lemma ExecutionsWithinStepBudget(r: Rules, states: seq<Memory>, calls: seq<Call>)
    requires IsCallRun(r, states, calls) && states[0].executions == 0 && states[0].steps == 0
    ensures forall i :: 0 <= i <= |calls| ==> WithinStepBudget(r, states[i])
  {
    for n := 0 to |calls|
      invariant forall i :: 0 <= i <= n ==> WithinStepBudget(r, states[i])
    {
      assert Does(r, states[n], calls[n], states[n + 1]);
      if calls[n].Submit? {
        TurnWithinStepBudget(r, states[n], calls[n].t);
      }
    }
  }
}
