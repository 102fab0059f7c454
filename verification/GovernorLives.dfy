/** How long what the governor remembers lasts: identifiers, restrictions and step budgets, over whole runs. */
module GovernorLives {
  import opened Prelude
  import opened Permissions
  import opened Decisions
  import opened Delegation
  import opened Restrictions
  import opened Pipeline
  import opened GovernorRuns
  import opened Verdicts
  import Replay

  // ---- one key in a table of recent keys ----

  /** `key` was the last to be accepted but `since` others, in a table that keeps the last `cap`. */
  ghost predicate Aged(table: seq<string>, key: string, since: nat, cap: nat) {
    && |table| <= cap
    && (since < cap ==> since < |table| && forall i :: 0 <= i < |table| ==> (table[i] == key <==> i == |table| - 1 - since))
    && (since >= cap ==> key !in table)
  }

  lemma AcceptedIsYoungest(table: seq<string>, key: string, cap: nat)
    ensures Aged(Replay.Remembered(table, key, cap), key, 0, cap)
  {
    Replay.WithoutSubset(table, key);
    var others := Replay.Without(table, key);
    assert key !in others;
    forall i | 0 <= i < |others| ensures others[i] != key {
      assert others[i] in others;
    }
  }

  /** Another key is accepted: this one grows older, and goes when `cap` others have come. */
  lemma AnotherAccepted(table: seq<string>, key: string, since: nat, cap: nat, other: string)
    requires Aged(table, key, since, cap) && other !in table && other != key
    ensures Aged(Replay.Remembered(table, other, cap), key, since + 1, cap)
  {
    Replay.WithoutAbsent(table, other);
  }

  /** A table of recent keys over time: `taken[k]` is the key accepted at step `k`, if any, and was unknown then. */
  ghost predicate IsTableRun(tables: seq<seq<string>>, taken: seq<Option<string>>, cap: nat) {
    |tables| == |taken| + 1 && forall k :: 0 <= k < |taken| ==> TableStep(tables[k], taken[k], tables[k + 1], cap)
  }

  predicate TableStep(table: seq<string>, key: Option<string>, next: seq<string>, cap: nat) {
    if key.None? then next == table else key.value !in table && next == Replay.Remembered(table, key.value, cap)
  }

  /** How many keys were accepted in steps `i` to `j`. */
  function TakenBetween(taken: seq<Option<string>>, i: nat, j: nat): nat
    requires i <= j <= |taken|
    decreases j
  {
    if i == j then 0 else TakenBetween(taken, i, j - 1) + (if taken[j - 1].Some? then 1 else 0)
  }

  lemma {:induction false} AgesFrom(tables: seq<seq<string>>, taken: seq<Option<string>>, cap: nat, i: nat, j: nat, key: string)
    requires IsTableRun(tables, taken, cap) && i <= j <= |taken| && Aged(tables[i], key, 0, cap)
    requires forall k :: i <= k < j ==> taken[k] != Some(key)
    ensures Aged(tables[j], key, TakenBetween(taken, i, j), cap)
    decreases j
  {
    if i < j {
      AgesFrom(tables, taken, cap, i, j - 1, key);
      assert TableStep(tables[j - 1], taken[j - 1], tables[j], cap);
      if taken[j - 1].Some? {
        AnotherAccepted(tables[j - 1], key, TakenBetween(taken, i, j - 1), cap, taken[j - 1].value);
      }
    }
  }

  lemma YoungestAfter(table: seq<string>, next: seq<string>, key: string, cap: nat)
    requires TableStep(table, Some(key), next, cap)
    ensures Aged(next, key, 0, cap)
  {
    AcceptedIsYoungest(table, key, cap);
  }

  lemma AgedIsKnown(table: seq<string>, key: string, since: nat, cap: nat)
    requires Aged(table, key, since, cap)
    ensures key in table <==> since < cap
  {
    if since < cap {
      assert table[|table| - 1 - since] == key;
    }
  }

  /**
   A key that was accepted is known as long as fewer than `cap` others were
   accepted since, and not after that, unless it is accepted anew.
   */
  lemma KeyIsKnownExactly(tables: seq<seq<string>>, taken: seq<Option<string>>, cap: nat, i: nat, j: nat)
    requires IsTableRun(tables, taken, cap) && i < j <= |taken| && taken[i].Some?
    requires forall k :: i < k < j ==> taken[k] != taken[i]
    ensures taken[i].value in tables[j] <==> TakenBetween(taken, i + 1, j) < cap
  {
    var key, since := taken[i].value, TakenBetween(taken, i + 1, j);
    assert taken[i] == Some(key) && TableStep(tables[i], Some(key), tables[i + 1], cap);
    YoungestAfter(tables[i], tables[i + 1], key, cap);
    AgesFrom(tables, taken, cap, i + 1, j, key);
    AgedIsKnown(tables[j], key, since, cap);
  }

  // ---- nonces and proposal ids ----

  function NonceKey(p: Proposal): string {
    p.agent + ":" + p.nonce
  }

  /** The nonce that a call uses up: that of an attempt that is admitted. */
  ghost function NonceTaken(r: Rules, m: Memory, c: Call): Option<string> {
    if c.Submit? && Counts(r, m, c.t.p, c.t.w) && c.t.p.nonce != "" then Some(NonceKey(c.t.p)) else None
  }

  /** The proposal id that a call uses up, when ids are deduplicated. */
  ghost function IdTaken(r: Rules, m: Memory, c: Call): Option<string> {
    if c.Submit? && Counts(r, m, c.t.p, c.t.w) && r.cfg.dedupeProposalIds then Some(c.t.p.id) else None
  }

  ghost function NoncesTaken(r: Rules, states: seq<Memory>, calls: seq<Call>): (taken: seq<Option<string>>)
    requires |states| == |calls| + 1
    ensures |taken| == |calls| && forall k :: 0 <= k < |calls| ==> taken[k] == NonceTaken(r, states[k], calls[k])
  {
    seq(|calls|, k requires 0 <= k < |calls| => NonceTaken(r, states[k], calls[k]))
  }

  ghost function IdsTaken(r: Rules, states: seq<Memory>, calls: seq<Call>): (taken: seq<Option<string>>)
    requires |states| == |calls| + 1
    ensures |taken| == |calls| && forall k :: 0 <= k < |calls| ==> taken[k] == IdTaken(r, states[k], calls[k])
  {
    seq(|calls|, k requires 0 <= k < |calls| => IdTaken(r, states[k], calls[k]))
  }

  lemma IdentifiersUnlessCounted(r: Rules, m: Memory, p: Proposal, w: Surroundings)
    ensures
      var next := Next(r, m, p, w);
      if Counts(r, m, p, w) then
        next.seenNonces == Counted(r.cfg, m, p).seenNonces && next.seenIds == Counted(r.cfg, m, p).seenIds
      else next == m
  {
    CountsExactly(r, m, p, w);
  }

  lemma NonceSteps(r: Rules, m: Memory, c: Call, next: Memory)
    requires Does(r, m, c, next)
    ensures TableStep(m.seenNonces, NonceTaken(r, m, c), next.seenNonces, r.cfg.caps.nonces)
  {
    if c.Submit? {
      IdentifiersUnlessCounted(r, m, c.t.p, c.t.w);
      assert Replay.CacheKey(c.t.p.agent, c.t.p.nonce) == NonceKey(c.t.p);
    }
  }

  lemma IdSteps(r: Rules, m: Memory, c: Call, next: Memory)
    requires Does(r, m, c, next)
    ensures TableStep(m.seenIds, IdTaken(r, m, c), next.seenIds, r.cfg.caps.proposals)
  {
    if c.Submit? {
      IdentifiersUnlessCounted(r, m, c.t.p, c.t.w);
    }
  }

  function NonceTables(states: seq<Memory>): (tables: seq<seq<string>>)
    ensures |tables| == |states| && forall k :: 0 <= k < |states| ==> tables[k] == states[k].seenNonces
  {
    seq(|states|, k requires 0 <= k < |states| => states[k].seenNonces)
  }

  function IdTables(states: seq<Memory>): (tables: seq<seq<string>>)
    ensures |tables| == |states| && forall k :: 0 <= k < |states| ==> tables[k] == states[k].seenIds
  {
    seq(|states|, k requires 0 <= k < |states| => states[k].seenIds)
  }

  lemma IdentifiersAreTableRuns(r: Rules, states: seq<Memory>, calls: seq<Call>)
    requires IsCallRun(r, states, calls)
    ensures IsTableRun(NonceTables(states), NoncesTaken(r, states, calls), r.cfg.caps.nonces)
    ensures IsTableRun(IdTables(states), IdsTaken(r, states, calls), r.cfg.caps.proposals)
  {
    forall k | 0 <= k < |calls|
      ensures TableStep(states[k].seenNonces, NonceTaken(r, states[k], calls[k]), states[k + 1].seenNonces, r.cfg.caps.nonces)
      ensures TableStep(states[k].seenIds, IdTaken(r, states[k], calls[k]), states[k + 1].seenIds, r.cfg.caps.proposals)
    {
      NonceSteps(r, states[k], calls[k], states[k + 1]);
      IdSteps(r, states[k], calls[k], states[k + 1]);
    }
  }

  /**
   A nonce that was used up is known, and so refused, as long as fewer than the
   cap of others were used up since, and is unknown after that unless used anew.
   */
  lemma NonceIsRememberedExactly(r: Rules, states: seq<Memory>, calls: seq<Call>, i: nat, j: nat)
    requires IsCallRun(r, states, calls) && i < j <= |calls|
    requires
      var taken := NoncesTaken(r, states, calls);
      taken[i].Some? && forall k :: i < k < j ==> taken[k] != taken[i]
    ensures
      var taken := NoncesTaken(r, states, calls);
      taken[i].value in states[j].seenNonces <==> TakenBetween(taken, i + 1, j) < r.cfg.caps.nonces
  {
    IdentifiersAreTableRuns(r, states, calls);
    KeyIsKnownExactly(NonceTables(states), NoncesTaken(r, states, calls), r.cfg.caps.nonces, i, j);
  }

  /** The same for deduplicated proposal ids. */
  lemma IdIsRememberedExactly(r: Rules, states: seq<Memory>, calls: seq<Call>, i: nat, j: nat)
    requires IsCallRun(r, states, calls) && i < j <= |calls|
    requires
      var taken := IdsTaken(r, states, calls);
      taken[i].Some? && forall k :: i < k < j ==> taken[k] != taken[i]
    ensures
      var taken := IdsTaken(r, states, calls);
      taken[i].value in states[j].seenIds <==> TakenBetween(taken, i + 1, j) < r.cfg.caps.proposals
  {
    IdentifiersAreTableRuns(r, states, calls);
    KeyIsKnownExactly(IdTables(states), IdsTaken(r, states, calls), r.cfg.caps.proposals, i, j);
  }

  /** A known identifier goes to a human and leaves everything as it was. */
  lemma KnownIdentifierIsRefused(r: Rules, m: Memory, p: Proposal, w: Surroundings)
    requires (p.nonce != "" && NonceKey(p) in m.seenNonces) || (r.cfg.dedupeProposalIds && p.id in m.seenIds)
    ensures Verdict(r, m, p, w) == HUMAN && Next(r, m, p, w) == m
  {
    CountedOrUntouched(r, m, p, w);
  }

  // ---- how long a restriction lasts ----

  /** The number of attempts, or seconds, a policy gives a restriction; unset and zero mean the default. */
  lemma LifetimeExactly(r: Rules, m: Memory, t: Turn, now: Moment)
    requires r.pol.restrictPolicy != STEP_BUDGET
    ensures
      var steps := if r.pol.ttlSteps == None || r.pol.ttlSteps == Some(0) then 3 else r.pol.ttlSteps.value;
      var seconds := if r.pol.ttlSeconds == None || r.pol.ttlSeconds == Some(0.0) then 60.0 else r.pol.ttlSeconds.value;
      IsLive(Imposed(r, m, t).expiry, now) <==>
        match r.pol.restrictPolicy
        case TTL_STEPS => now.step < m.steps + 1 + steps
        case TTL_WALLCLOCK => now.clock < t.w.laterClock + seconds
        case HUMAN_ONLY => true
        case STEP_BUDGET => false
  {}

  /** Some moment is no earlier than any clock reading of the restrictions of `agent` between two calls. */
  lemma LatestClock(calls: seq<Call>, agent: AgentId, i: nat, j: nat) returns (clock: real)
    requires i < j < |calls|
    ensures ClockHeld(calls, agent, i, j, clock)
  {
    clock := 0.0;
    for k := i + 1 to j
      invariant forall l :: i < l < k ==> ReadsBy(calls[l], agent, clock)
    {
      var at := if calls[k].Submit? then calls[k].t.w.clock else if calls[k].Offer? then calls[k].clock else 0.0;
      if clock < at {
        clock := at;
      }
    }
  }

  /** Under the step policy a restriction blocks every covering request of its agent for that many counted attempts, whatever the clocks. */
  lemma StepRestrictionLasts(r: Rules, states: seq<Memory>, calls: seq<Call>, i: nat, j: nat)
    requires IsCallRun(r, states, calls) && i < j < |calls| && calls[i].Submit? && calls[j].Submit?
    requires Settled(r, states[i], calls[i].t.p, calls[i].t.w) == RESTRICT && r.pol.restrictPolicy == TTL_STEPS
    requires calls[j].t.p.agent == calls[i].t.p.agent && Covers(calls[j].t.p.required, calls[i].t.p.required)
    requires states[j].steps < states[i].steps
               + (if r.pol.ttlSteps == None || r.pol.ttlSteps == Some(0) then 3 else r.pol.ttlSteps.value)
    ensures Verdict(r, states[j], calls[j].t.p, calls[j].t.w) == HUMAN
  {
    var clock := LatestClock(calls, calls[i].t.p.agent, i, j);
    BlockedWhileLive(r, states, calls, i, j, clock);
  }

  /** Under the wall-clock policy it does so for that many seconds, as long as no clock in between ran ahead. */
  lemma TimedRestrictionLasts(r: Rules, states: seq<Memory>, calls: seq<Call>, i: nat, j: nat)
    requires IsCallRun(r, states, calls) && i < j < |calls| && calls[i].Submit? && calls[j].Submit?
    requires Settled(r, states[i], calls[i].t.p, calls[i].t.w) == RESTRICT && r.pol.restrictPolicy == TTL_WALLCLOCK
    requires calls[j].t.p.agent == calls[i].t.p.agent && Covers(calls[j].t.p.required, calls[i].t.p.required)
    requires calls[j].t.w.clock < calls[i].t.w.laterClock
               + (if r.pol.ttlSeconds == None || r.pol.ttlSeconds == Some(0.0) then 60.0 else r.pol.ttlSeconds.value)
    requires ClockHeld(calls, calls[i].t.p.agent, i, j, calls[j].t.w.clock)
    ensures Verdict(r, states[j], calls[j].t.p, calls[j].t.w) == HUMAN
  {
    BlockedWhileLive(r, states, calls, i, j, calls[j].t.w.clock);
  }

  /** Under the human-only policy it does so for ever. */
  lemma HumanRestrictionLasts(r: Rules, states: seq<Memory>, calls: seq<Call>, i: nat, j: nat)
    requires IsCallRun(r, states, calls) && i < j < |calls| && calls[i].Submit? && calls[j].Submit?
    requires Settled(r, states[i], calls[i].t.p, calls[i].t.w) == RESTRICT && r.pol.restrictPolicy == HUMAN_ONLY
    requires calls[j].t.p.agent == calls[i].t.p.agent && Covers(calls[j].t.p.required, calls[i].t.p.required)
    ensures Verdict(r, states[j], calls[j].t.p, calls[j].t.w) == HUMAN
  {
    var clock := LatestClock(calls, calls[i].t.p.agent, i, j);
    BlockedWhileLive(r, states, calls, i, j, clock);
  }

  /** The restriction is kept up to call `j` by every reading no later than `clock`, and finds the request there. */
  lemma BlockedWhileLive(r: Rules, states: seq<Memory>, calls: seq<Call>, i: nat, j: nat, clock: real)
    requires IsCallRun(r, states, calls) && i < j < |calls| && calls[i].Submit? && calls[j].Submit?
    requires Settled(r, states[i], calls[i].t.p, calls[i].t.w) == RESTRICT && r.pol.restrictPolicy != STEP_BUDGET
    requires calls[j].t.p.agent == calls[i].t.p.agent && Covers(calls[j].t.p.required, calls[i].t.p.required)
    requires ClockHeld(calls, calls[i].t.p.agent, i, j, clock)
    requires IsLive(Imposed(r, states[i], calls[i].t).expiry, Moment(states[j].steps + 1, clock))
    requires IsLive(Imposed(r, states[i], calls[i].t).expiry, Moment(states[j].steps + 1, calls[j].t.w.clock))
    ensures Verdict(r, states[j], calls[j].t.p, calls[j].t.w) == HUMAN
  {
    var t, later, x := calls[i].t, calls[j].t, Imposed(r, states[i], calls[i].t);
    RestrictionIsRecorded(r, states[i], t, states[i + 1]);
    RestrictionStays(r, states, calls, i, j, t.p.agent, x, Moment(states[j].steps + 1, clock));
    assert t.p.required in ActiveAt(states[j], t.p.agent, later.w.clock);
    RestrictedNeverContinues(r, states[j], later.p, later.w, t.p.required);
  }

  // ---- how many evaluations a step budget lets through ----

  /** The units left of the step budget on `key`; none when there is no such budget. */
  function UnitsLeft(m: Memory, agent: AgentId, key: string): Option<int> {
    if agent in m.stepBudgets && key in m.stepBudgets[agent] then Some(m.stepBudgets[agent][key]) else None
  }

  function RequiredKey(p: Proposal): string {
    p.required.name + ":" + p.required.scope
  }

  /** Call `c` is an evaluation of this permission that gets as far as the step-budget gate. */
  ghost predicate AsksFor(r: Rules, m: Memory, c: Call, agent: AgentId, key: string) {
    c.Submit? && c.t.p.agent == agent && RequiredKey(c.t.p) == key && ReachesStepBudget(r.pol, r.cfg, m, c.t.p, c.t.w)
  }

  /** Call `c` imposes a step budget on this permission. */
  ghost predicate Budgets(r: Rules, m: Memory, c: Call, agent: AgentId, key: string) {
    c.Submit? && c.t.p.agent == agent && RequiredKey(c.t.p) == key && Settled(r, m, c.t.p, c.t.w) == RESTRICT
  }

  /** Which calls are evaluations of this permission that get as far as the gate. */
  ghost function Asking(r: Rules, states: seq<Memory>, calls: seq<Call>, agent: AgentId, key: string): (asks: seq<bool>)
    requires |states| == |calls| + 1
    ensures |asks| == |calls| && forall k :: 0 <= k < |calls| ==> asks[k] == AsksFor(r, states[k], calls[k], agent, key)
  {
    seq(|calls|, k requires 0 <= k < |calls| => AsksFor(r, states[k], calls[k], agent, key))
  }

  function AskedBetween(asks: seq<bool>, i: nat, j: nat): nat
    requires i <= j <= |asks|
    decreases j
  {
    if i == j then 0 else AskedBetween(asks, i, j - 1) + (if asks[j - 1] then 1 else 0)
  }

  /** What the gate leaves of a counter: one unit less, or nothing of one that had run out. */
  function AfterAsking(left: Option<int>): Option<int> {
    if left.None? || left.value <= 0 then None else Some(left.value - 1)
  }

  lemma GateCounts(r: Rules, m: Memory, p: Proposal, w: Surroundings, agent: AgentId, key: string)
    requires r.pol.restrictPolicy == STEP_BUDGET
    ensures
      var asks := p.agent == agent && RequiredKey(p) == key && ReachesStepBudget(r.pol, r.cfg, m, p, w);
      UnitsLeft(Gated(r, m, p, w), agent, key) == if asks then AfterAsking(UnitsLeft(m, agent, key)) else UnitsLeft(m, agent, key)
  {
    assert Key(p.required) == RequiredKey(p);
  }

  lemma StepBudgetStep(r: Rules, m: Memory, c: Call, next: Memory, agent: AgentId, key: string)
    requires Does(r, m, c, next) && r.pol.restrictPolicy == STEP_BUDGET && !Budgets(r, m, c, agent, key)
    ensures UnitsLeft(next, agent, key) ==
              if AsksFor(r, m, c, agent, key) then AfterAsking(UnitsLeft(m, agent, key)) else UnitsLeft(m, agent, key)
  {
    if c.Submit? {
      GateCounts(r, m, c.t.p, c.t.w, agent, key);
      assert Key(c.t.p.required) == RequiredKey(c.t.p);
    }
  }

  /** An evaluation that ends with RESTRICT under the step-budget policy imposes the policy's budget, ten when it sets none. */
  lemma BudgetStarts(r: Rules, m: Memory, c: Call, next: Memory, units: int)
    requires Does(r, m, c, next) && c.Submit? && r.pol.restrictPolicy == STEP_BUDGET && Settled(r, m, c.t.p, c.t.w) == RESTRICT
    requires units == (if r.pol.stepBudget == None || r.pol.stepBudget == Some(0) then 10 else r.pol.stepBudget.value)
    ensures UnitsLeft(next, c.t.p.agent, RequiredKey(c.t.p)) == Some(units)
  {
    BudgetImposed(r, m, c.t, next);
  }

  lemma BudgetImposed(r: Rules, m: Memory, t: Turn, next: Memory)
    requires next == Next(r, m, t.p, t.w) && r.pol.restrictPolicy == STEP_BUDGET && Settled(r, m, t.p, t.w) == RESTRICT
    ensures
      var units := if r.pol.stepBudget == None || r.pol.stepBudget == Some(0) then 10 else r.pol.stepBudget.value;
      UnitsLeft(next, t.p.agent, RequiredKey(t.p)) == Some(units)
  {
    assert Key(t.p.required) == RequiredKey(t.p);
  }

  /** What is left of `units` when `asked` evaluations asked: the one that finds nothing left removes the budget. */
  function LeftOf(units: int, asked: nat): Option<int> {
    if asked <= units then Some(units - asked) else None
  }

  /** A counter over time: a step that asks takes a unit or removes an exhausted counter, any other leaves it. */
  ghost predicate IsCounterRun(left: seq<Option<int>>, asks: seq<bool>, i: nat, j: nat) {
    |left| == |asks| + 1 && i <= j <= |asks|
    && forall k :: i <= k < j ==> left[k + 1] == if asks[k] then AfterAsking(left[k]) else left[k]
  }

  lemma {:induction false} CounterRuns(left: seq<Option<int>>, asks: seq<bool>, i: nat, j: nat, units: int)
    requires IsCounterRun(left, asks, i, j) && left[i] == Some(units) && units > 0
    ensures left[j] == LeftOf(units, AskedBetween(asks, i, j))
    decreases j
  {
    if i < j {
      CounterRuns(left, asks, i, j - 1, units);
    }
  }

  function UnitsOver(states: seq<Memory>, agent: AgentId, key: string): (left: seq<Option<int>>)
    ensures |left| == |states| && forall k :: 0 <= k < |states| ==> left[k] == UnitsLeft(states[k], agent, key)
  {
    seq(|states|, k requires 0 <= k < |states| => UnitsLeft(states[k], agent, key))
  }

  lemma BudgetIsACounterRun(r: Rules, states: seq<Memory>, calls: seq<Call>, i: nat, j: nat, agent: AgentId, key: string)
    requires IsCallRun(r, states, calls) && i <= j <= |calls| && r.pol.restrictPolicy == STEP_BUDGET
    requires forall k :: i <= k < j ==> !Budgets(r, states[k], calls[k], agent, key)
    ensures IsCounterRun(UnitsOver(states, agent, key), Asking(r, states, calls, agent, key), i, j)
  {
    forall k | i <= k < j
      ensures UnitsLeft(states[k + 1], agent, key) ==
                if AsksFor(r, states[k], calls[k], agent, key) then AfterAsking(UnitsLeft(states[k], agent, key))
                else UnitsLeft(states[k], agent, key)
    {
      StepBudgetStep(r, states[k], calls[k], states[k + 1], agent, key);
    }
  }

  /**
   A step budget of `units` stops none of the next `units` evaluations of the
   permission that get as far as its gate, and sends the one after to a human,
   unless a new one is imposed in between.
   */
  lemma StepBudgetLetsThroughExactly(r: Rules, states: seq<Memory>, calls: seq<Call>, i: nat, j: nat, agent: AgentId, key: string, units: int)
    requires IsCallRun(r, states, calls) && i <= j < |calls| && r.pol.restrictPolicy == STEP_BUDGET
    requires UnitsLeft(states[i], agent, key) == Some(units) && units > 0
    requires forall k :: i <= k < j ==> !Budgets(r, states[k], calls[k], agent, key)
    requires AsksFor(r, states[j], calls[j], agent, key)
    ensures
      var asked := AskedBetween(Asking(r, states, calls, agent, key), i, j);
      && (RunOut(r, states[j], calls[j].t.p) <==> asked == units)
      && (asked == units ==> Verdict(r, states[j], calls[j].t.p, calls[j].t.w) == HUMAN)
  {
    var left, asks := UnitsOver(states, agent, key), Asking(r, states, calls, agent, key);
    BudgetIsACounterRun(r, states, calls, i, j, agent, key);
    CounterRuns(left, asks, i, j, units);
    GateStops(r, states[j], calls[j], agent, key, units, AskedBetween(asks, i, j));
  }

  lemma GateStops(r: Rules, m: Memory, c: Call, agent: AgentId, key: string, units: int, asked: nat)
    requires r.pol.restrictPolicy == STEP_BUDGET && AsksFor(r, m, c, agent, key)
    requires UnitsLeft(m, agent, key) == LeftOf(units, asked)
    ensures RunOut(r, m, c.t.p) <==> asked == units
    ensures asked == units ==> Verdict(r, m, c.t.p, c.t.w) == HUMAN
  {
    if RunOut(r, m, c.t.p) {
      ReservedForHumans(r, m, c.t.p, c.t.w);
    }
  }
}
