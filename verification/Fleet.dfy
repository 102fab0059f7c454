/**
 Any number of governors evaluating over one durable store. Each call of the
 store is one atomic step, an evaluation is many, and steps of different
 governors, publications, restarts and crashes interleave freely.
 */
module Fleet {
  import opened Prelude
  import opened Permissions
  import opened Decisions
  import opened Replay
  import Quorum
  import Restrictions

  type AgentId = string
  type GovId = nat
  type EvalId = nat
  type Restriction = Restrictions.Restriction
  type Moment = Restrictions.Moment

  // ---- the store ----

  datatype RowKey = RowKey(name: string, scope: string)

  /** `remaining` counts only when the row is metered. */
  datatype Row = Row(maxBudget: Option<nat>, remaining: int)

  type Rows = map<RowKey, Row>

  /** Claims, step counters, initialisation markers, live authority, and restrictions neither cleared nor marked expired. */
  datatype Store = Store(
    claims: set<Claim>,
    counters: map<string, nat>,
    initialized: set<AgentId>,
    rows: map<AgentId, Rows>,
    restricted: map<AgentId, set<Restriction>>)

  const NAMESPACE := "default"

  function RowsOf(st: Store, agent: AgentId): Rows {
    if agent in st.rows then st.rows[agent] else map[]
  }

  function KeyOfPermission(p: Permission): RowKey {
    RowKey(p.name, p.scope)
  }

  function PermissionsOf(rows: Rows): set<Permission> {
    set k | k in rows :: Permission(k.name, k.scope, rows[k].maxBudget)
  }

  /** Every published row starts with its whole budget. */
  function Published(budgets: map<RowKey, Option<nat>>): Rows {
    map k | k in budgets :: Row(budgets[k], if budgets[k].Some? then budgets[k].value else 0)
  }

  /** The single conditional update: the row exists and is unlimited or has a unit left. */
  predicate CanSpend(rows: Rows, k: RowKey) {
    k in rows && (rows[k].maxBudget.Some? ==> rows[k].remaining >= 1)
  }

  function Spent(rows: Rows, k: RowKey): Rows
    requires CanSpend(rows, k)
  {
    if rows[k].maxBudget.None? then rows else rows[k := rows[k].(remaining := rows[k].remaining - 1)]
  }

  /** The permissions left after removing those that cover an active restriction. */
  function Effective(rows: Rows, active: set<Permission>): set<Permission> {
    set p | p in PermissionsOf(rows) && forall a | a in active :: !Covers(p, a)
  }

  // ---- evaluations in flight ----

  datatype Request = Request(proposalId: string, agent: AgentId, nonce: string, required: Permission, dedupe: bool)

  datatype Stage =
    | Admitted
    | NonceClaimed
    | ClaimsHeld
    | FleetCounted(within: bool)
    | Counted
    | LiveRead(live: Rows)
    | BaseRead(live: Rows, base: Rows)
    | Authorised
    | Assessed(d: Decision)
    | Agreed
    | BaseReRead(base: Rows)
    | Resolved(matched: Permission)
    | Paid(matched: Permission)
    | Restricting

  datatype Flight = Flight(eval: EvalId, req: Request, stage: Stage)

  datatype Event =
    | Publish(agent: AgentId)
    | Grant(eval: EvalId, claim: Claim)
    | Assess(eval: EvalId, d: Decision)
    | PeersAgree(eval: EvalId)
    | Resolve(eval: EvalId, req: Request, base: Rows, active: set<Permission>, matched: Permission)
    | Consume(eval: EvalId, agent: AgentId, key: RowKey, metered: bool)
    | Execute(eval: EvalId, req: Request, matched: Permission)
    | Decide(eval: EvalId, d: Decision)

  datatype World = World(store: Store, flights: map<GovId, Flight>, log: seq<Event>, nextEval: EvalId)

  const EMPTY := World(Store({}, map[], {}, map[], map[]), map[], [], 0)

  // ---- steps ----

  datatype Action =
    | Begin(g: GovId, req: Request)
    | ClaimNonce(g: GovId)
    | ClaimProposal(g: GovId)
    | CountFleet(g: GovId, limit: int)
    | CountAgent(g: GovId, cap: Option<nat>)
    | ReadLive(g: GovId)
    | ReadBase(g: GovId)
    | ReadRestrictions(g: GovId, now: Moment)
    | AssessRisk(g: GovId, d: Decision)
    | Vote(g: GovId, votes: Option<seq<Quorum.Vote>>, threshold: real, humanOnDisagreement: bool)
    | ReReadBase(g: GovId)
    | ReReadRestrictions(g: GovId, now: Moment)
    | ConsumeBudget(g: GovId)
    | CallBoundary(g: GovId, wired: bool, ok: bool)
    | Settle(g: GovId)
    | ImposeRestriction(g: GovId, expiry: Option<Restrictions.Expiry>)
    | Deny(g: GovId)
    | Crash(g: GovId)
    | Initialize(agent: AgentId, budgets: map<RowKey, Option<nat>>)
    | Replace(agent: AgentId, budgets: map<RowKey, Option<nat>>)
    | Expire(agent: AgentId, r: Restriction, now: Moment)
    | Lift(agent: AgentId, r: Restriction)

  predicate At(w: World, g: GovId, s: Stage) {
    g in w.flights && w.flights[g].stage == s
  }

  function NonceClaimOf(r: Request): Claim {
    NonceClaim(NAMESPACE, r.agent, r.nonce)
  }

  function ProposalClaimOf(r: Request): Claim {
    ProposalClaim(NAMESPACE, r.proposalId)
  }

  function Count(st: Store, scope: string): nat {
    (if scope in st.counters then st.counters[scope] else 0) + 1
  }

  /** The governing permission after the re-read, when the request is still authorised. */
  ghost function Resolution(base: Rows, active: set<Permission>, req: Permission): Option<Permission> {
    Match(Effective(base, active), req)
  }

  function RestrictionsOf(st: Store, agent: AgentId): set<Restriction> {
    if agent in st.restricted then st.restricted[agent] else {}
  }

  /** What is restricted for a governor that reads at its own moment `now`. */
  function ActiveFor(st: Store, agent: AgentId, now: Moment): set<Permission> {
    set r | r in RestrictionsOf(st, agent) && Restrictions.IsLive(r.expiry, now) :: r.permission
  }

  function To(w: World, g: GovId, s: Stage): World
    requires g in w.flights
  {
    w.(flights := w.flights[g := w.flights[g].(stage := s)])
  }

  function Logged(w: World, e: Event): World {
    w.(log := w.log + [e])
  }

  /** The evaluation ends with a decision and its governor is free again. */
  function Finished(w: World, g: GovId, d: Decision): World
    requires g in w.flights
  {
    Logged(w, Decide(w.flights[g].eval, d)).(flights := w.flights - {g})
  }

  /** A claim that conflicts denies; one that does not is recorded before anything else happens. */
  function Claiming(w: World, g: GovId, needed: bool, c: Claim, s: Stage): World
    requires g in w.flights
  {
    if !needed then To(w, g, s)
    else if c in w.store.claims then Finished(w, g, HUMAN)
    else Logged(To(w, g, s).(store := w.store.(claims := w.store.claims + {c})), Grant(w.flights[g].eval, c))
  }

  /** A unit of row `k` of `agent` is spent by evaluation `v`. */
  function Paying(w: World, v: EvalId, agent: AgentId, k: RowKey): World
    requires CanSpend(RowsOf(w.store, agent), k)
  {
    var rows := RowsOf(w.store, agent);
    Logged(w.(store := w.store.(rows := w.store.rows[agent := Spent(rows, k)])), Consume(v, agent, k, rows[k].maxBudget.Some?))
  }

  const FLEET_SCOPE := "fleet"

  function AgentScope(agent: AgentId): string {
    "agent:" + agent
  }

  function Bumped(w: World, scope: string): World {
    w.(store := w.store.(counters := w.store.counters[scope := Count(w.store, scope)]))
  }

  /** Both counters are charged before either limit is looked at; no agent limit means no cap. */
  function CountingAgent(w: World, g: GovId, within: bool, cap: Option<nat>): World
    requires g in w.flights
  {
    var scope := AgentScope(w.flights[g].req.agent);
    if within && (cap.None? || Count(w.store, scope) <= cap.value) then To(Bumped(w, scope), g, Counted)
    else Finished(Bumped(w, scope), g, HUMAN)
  }

  ghost predicate Enabled(w: World, a: Action) {
    match a
    case Begin(g, _) => g !in w.flights
    case ClaimNonce(g) => At(w, g, Admitted)
    case ClaimProposal(g) => At(w, g, NonceClaimed)
    case CountFleet(g, _) => At(w, g, ClaimsHeld)
    case CountAgent(g, _) => g in w.flights && w.flights[g].stage.FleetCounted?
    case ReadLive(g) => At(w, g, Counted)
    case ReadBase(g) => g in w.flights && w.flights[g].stage.LiveRead?
    case ReadRestrictions(g, _) => g in w.flights && w.flights[g].stage.BaseRead?
    case AssessRisk(g, _) => At(w, g, Authorised)
    case Vote(g, _, _, _) => At(w, g, Assessed(CONTINUE))
    case ReReadBase(g) => At(w, g, Agreed)
    case ReReadRestrictions(g, _) => g in w.flights && w.flights[g].stage.BaseReRead?
    case ConsumeBudget(g) => g in w.flights && w.flights[g].stage.Resolved?
    case CallBoundary(g, _, _) => g in w.flights && w.flights[g].stage.Paid?
    case Settle(g) => At(w, g, Assessed(RECHECK)) || At(w, g, Assessed(HUMAN))
    case ImposeRestriction(g, _) => At(w, g, Restricting)
    case Deny(g) => g in w.flights
    case Crash(g) => g in w.flights
    case Initialize(_, _) => true
    case Replace(_, _) => true
    case Expire(_, r, now) => !Restrictions.IsLive(r.expiry, now)
    case Lift(_, _) => true
  }

  /** A gate outside this model that fails, an audit that fails and a store that raises are all `Deny`. */
  ghost function Step(w: World, a: Action): World
    requires Enabled(w, a)
  {
    match a
    case Begin(g, req) =>
      w.(flights := w.flights[g := Flight(w.nextEval, req, Admitted)], nextEval := w.nextEval + 1)
    case ClaimNonce(g) =>
      Claiming(w, g, w.flights[g].req.nonce != "", NonceClaimOf(w.flights[g].req), NonceClaimed)
    case ClaimProposal(g) =>
      Claiming(w, g, w.flights[g].req.dedupe, ProposalClaimOf(w.flights[g].req), ClaimsHeld)
    case CountFleet(g, limit) =>
      To(Bumped(w, FLEET_SCOPE), g, FleetCounted(Count(w.store, FLEET_SCOPE) <= limit))
    case CountAgent(g, cap) => CountingAgent(w, g, w.flights[g].stage.within, cap)
    case ReadLive(g) => To(w, g, LiveRead(RowsOf(w.store, w.flights[g].req.agent)))
    case ReadBase(g) => To(w, g, BaseRead(w.flights[g].stage.live, RowsOf(w.store, w.flights[g].req.agent)))
    case ReadRestrictions(g, now) =>
      var f := w.flights[g];
      var live := Match(PermissionsOf(f.stage.live), f.req.required);
      if Resolution(f.stage.base, ActiveFor(w.store, f.req.agent, now), f.req.required).Some?
         && live.Some? && CanSpend(f.stage.live, KeyOfPermission(live.value))
      then To(w, g, Authorised) else Finished(w, g, HUMAN)
    case AssessRisk(g, d) => Logged(To(w, g, Assessment(d)), Assess(w.flights[g].eval, d))
    case Vote(g, votes, threshold, humanOnDisagreement) =>
      var d := Quorum.Peers(votes, threshold, humanOnDisagreement);
      if d == CONTINUE then Logged(To(w, g, Agreed), PeersAgree(w.flights[g].eval)) else To(w, g, Assessment(d))
    case ReReadBase(g) => To(w, g, BaseReRead(RowsOf(w.store, w.flights[g].req.agent)))
    case ReReadRestrictions(g, now) =>
      var f := w.flights[g];
      var active := ActiveFor(w.store, f.req.agent, now);
      var m := Resolution(f.stage.base, active, f.req.required);
      if m.None? then Finished(w, g, HUMAN)
      else Logged(To(w, g, Resolved(m.value)), Resolve(f.eval, f.req, f.stage.base, active, m.value))
    case ConsumeBudget(g) =>
      var f := w.flights[g];
      var k, rows := KeyOfPermission(f.stage.matched), RowsOf(w.store, f.req.agent);
      if f.stage.matched.maxBudget.None? then To(w, g, Paid(f.stage.matched))
      else if !CanSpend(rows, k) then Finished(w, g, HUMAN)
      else Paying(To(w, g, Paid(f.stage.matched)), f.eval, f.req.agent, k)
    case CallBoundary(g, wired, ok) =>
      var f := w.flights[g];
      var called := if wired then Logged(w, Execute(f.eval, f.req, f.stage.matched)) else w;
      Finished(called, g, if wired && !ok then HUMAN else CONTINUE)
    case Settle(g) => Finished(w, g, w.flights[g].stage.d)
    case ImposeRestriction(g, expiry) =>
      Finished(Imposing(w, w.flights[g].req, expiry), g, RESTRICT)
    case Deny(g) => Finished(w, g, HUMAN)
    case Crash(g) => w.(flights := w.flights - {g})
    case Initialize(agent, budgets) =>
      if agent in w.store.initialized then w else Publishing(w, agent, budgets)
    case Replace(agent, budgets) => Publishing(w, agent, budgets)
    case Expire(agent, r, _) => Without(w, agent, r)
    case Lift(agent, r) => Without(w, agent, r)
  }

  function Assessment(d: Decision): Stage {
    if d == RESTRICT then Restricting else Assessed(d)
  }

  /** A restriction without an expiry, under the step-budget policy, stays in one governor's memory. */
  function Imposing(w: World, r: Request, expiry: Option<Restrictions.Expiry>): World {
    if expiry.None? then w
    else
      var imposed := Restrictions.Restriction(r.required, expiry.value);
      w.(store := w.store.(restricted := w.store.restricted[r.agent := RestrictionsOf(w.store, r.agent) + {imposed}]))
  }

  /** The row is marked expired or cleared and is read no more. */
  function Without(w: World, agent: AgentId, r: Restriction): World {
    w.(store := w.store.(restricted := w.store.restricted[agent := RestrictionsOf(w.store, agent) - {r}]))
  }

  /** Marks the agent initialised and replaces all of its rows. */
  function Publishing(w: World, agent: AgentId, budgets: map<RowKey, Option<nat>>): World {
    Logged(w.(store := w.store.(
      initialized := w.store.initialized + {agent},
      rows := w.store.rows[agent := Published(budgets)])), Publish(agent))
  }

  ghost predicate IsRun(states: seq<World>, actions: seq<Action>) {
    && |states| == |actions| + 1
    && states[0] == EMPTY
    && forall i :: 0 <= i < |actions| ==> Enabled(states[i], actions[i]) && states[i + 1] == Step(states[i], actions[i])
  }

  // ---- conservation of every metered row ----

  /** Units consumed from a row since its agent's rows were last published. */
  function SpentSince(log: seq<Event>, agent: AgentId, k: RowKey): nat {
    if log == [] then 0
    else
      var n := |log| - 1;
      match log[n]
      case Publish(a) => if a == agent then 0 else SpentSince(log[..n], agent, k)
      case Consume(_, a, key, metered) =>
        SpentSince(log[..n], agent, k) + (if a == agent && key == k && metered then 1 else 0)
      case _ => SpentSince(log[..n], agent, k)
  }

  predicate RowBalances(log: seq<Event>, agent: AgentId, k: RowKey, row: Row) {
    row.maxBudget.Some? ==>
      row.remaining >= 0 && SpentSince(log, agent, k) + row.remaining == row.maxBudget.value
  }

  ghost predicate Balanced(w: World) {
    forall a, k :: a in w.store.rows && k in w.store.rows[a] ==> RowBalances(w.log, a, k, w.store.rows[a][k])
  }

  lemma SpentSinceSnoc(log: seq<Event>, e: Event, agent: AgentId, k: RowKey)
    ensures SpentSince(log + [e], agent, k) ==
            (match e
             case Publish(a) => if a == agent then 0 else SpentSince(log, agent, k)
             case Consume(_, a, key, metered) =>
               SpentSince(log, agent, k) + (if a == agent && key == k && metered then 1 else 0)
             case _ => SpentSince(log, agent, k))
  {
    assert (log + [e])[..|log|] == log;
  }

  lemma {:induction false} LoggedBalances(w: World, e: Event)
    requires Balanced(w) && !e.Publish? && !e.Consume?
    ensures Balanced(Logged(w, e))
  {
    forall a, k | a in w.store.rows && k in w.store.rows[a] ensures RowBalances(w.log + [e], a, k, w.store.rows[a][k]) {
      SpentSinceSnoc(w.log, e, a, k);
      assert RowBalances(w.log, a, k, w.store.rows[a][k]);
    }
  }

  lemma {:induction false} FinishedBalances(w: World, g: GovId, d: Decision)
    requires Balanced(w) && g in w.flights
    ensures Balanced(Finished(w, g, d))
  {
    LoggedBalances(w, Decide(w.flights[g].eval, d));
  }

  lemma {:induction false} PublishingBalances(w: World, agent: AgentId, budgets: map<RowKey, Option<nat>>)
    requires Balanced(w)
    ensures Balanced(Publishing(w, agent, budgets))
  {
    var after := Publishing(w, agent, budgets);
    forall a, k | a in after.store.rows && k in after.store.rows[a]
      ensures RowBalances(after.log, a, k, after.store.rows[a][k])
    {
      SpentSinceSnoc(w.log, Publish(agent), a, k);
      if a != agent {
        assert RowBalances(w.log, a, k, w.store.rows[a][k]);
      }
    }
  }

  lemma {:induction false} PayingBalances(w: World, v: EvalId, agent: AgentId, k: RowKey)
    requires Balanced(w) && CanSpend(RowsOf(w.store, agent), k)
    ensures Balanced(Paying(w, v, agent, k))
  {
    var after := Paying(w, v, agent, k);
    var e := after.log[|w.log|];
    forall b, j | b in after.store.rows && j in after.store.rows[b]
      ensures RowBalances(after.log, b, j, after.store.rows[b][j])
    {
      SpentSinceSnoc(w.log, e, b, j);
      assert RowBalances(w.log, b, j, w.store.rows[b][j]);
    }
  }

  lemma {:induction false} ConsumeBalances(w: World, a: Action)
    requires a.ConsumeBudget? && Enabled(w, a) && Balanced(w)
    ensures Balanced(Step(w, a))
  {
    var f := w.flights[a.g];
    var k, rows := KeyOfPermission(f.stage.matched), RowsOf(w.store, f.req.agent);
    if f.stage.matched.maxBudget.Some? && CanSpend(rows, k) {
      PayingBalances(To(w, a.g, Paid(f.stage.matched)), f.eval, f.req.agent, k);
    } else if f.stage.matched.maxBudget.Some? {
      FinishedBalances(w, a.g, HUMAN);
    }
  }

  lemma {:induction false} ClaimingBalances(w: World, g: GovId, needed: bool, c: Claim, s: Stage)
    requires Balanced(w) && g in w.flights
    ensures Balanced(Claiming(w, g, needed, c, s))
  {
    FinishedBalances(w, g, HUMAN);
    LoggedBalances(To(w, g, s).(store := w.store.(claims := w.store.claims + {c})), Grant(w.flights[g].eval, c));
  }

  lemma {:induction false} CountingBalances(w: World, g: GovId, within: bool, cap: Option<nat>)
    requires Balanced(w) && g in w.flights
    ensures Balanced(CountingAgent(w, g, within, cap))
  {
    FinishedBalances(Bumped(w, AgentScope(w.flights[g].req.agent)), g, HUMAN);
  }

  lemma {:induction false} CallBalances(w: World, a: Action)
    requires a.CallBoundary? && Enabled(w, a) && Balanced(w)
    ensures Balanced(Step(w, a))
  {
    var f := w.flights[a.g];
    var e := Execute(f.eval, f.req, f.stage.matched);
    LoggedBalances(w, e);
    FinishedBalances(if a.wired then Logged(w, e) else w, a.g, if a.wired && !a.ok then HUMAN else CONTINUE);
  }

  lemma {:induction false} ResolveBalances(w: World, a: Action)
    requires a.ReReadRestrictions? && Enabled(w, a) && Balanced(w)
    ensures Balanced(Step(w, a))
  {
    var f := w.flights[a.g];
    var active := ActiveFor(w.store, f.req.agent, a.now);
    var m := Resolution(f.stage.base, active, f.req.required);
    if m.None? {
      FinishedBalances(w, a.g, HUMAN);
    } else {
      LoggedBalances(To(w, a.g, Resolved(m.value)), Resolve(f.eval, f.req, f.stage.base, active, m.value));
    }
  }

  lemma {:induction false} StepBalances(w: World, a: Action)
    requires Enabled(w, a) && Balanced(w)
    ensures Balanced(Step(w, a))
  {
    match a
    case ClaimNonce(g) =>
      ClaimingBalances(w, g, w.flights[g].req.nonce != "", NonceClaimOf(w.flights[g].req), NonceClaimed);
    case ClaimProposal(g) =>
      ClaimingBalances(w, g, w.flights[g].req.dedupe, ProposalClaimOf(w.flights[g].req), ClaimsHeld);
    case CountAgent(g, cap) =>
      CountingBalances(w, g, w.flights[g].stage.within, cap);
    case ReadRestrictions(g, _) =>
      FinishedBalances(w, g, HUMAN);
    case AssessRisk(g, d) =>
      LoggedBalances(To(w, g, Assessment(d)), Assess(w.flights[g].eval, d));
    case Vote(g, votes, threshold, humanOnDisagreement) =>
      LoggedBalances(To(w, g, Agreed), PeersAgree(w.flights[g].eval));
    case ReReadRestrictions(g, _) =>
      ResolveBalances(w, a);
    case ConsumeBudget(g) =>
      ConsumeBalances(w, a);
    case CallBoundary(g, wired, ok) =>
      CallBalances(w, a);
    case Settle(g) =>
      FinishedBalances(w, g, w.flights[g].stage.d);
    case ImposeRestriction(g, expiry) =>
      FinishedBalances(Imposing(w, w.flights[g].req, expiry), g, RESTRICT);
    case Deny(g) =>
      FinishedBalances(w, g, HUMAN);
    case Initialize(agent, budgets) =>
      PublishingBalances(w, agent, budgets);
    case Replace(agent, budgets) =>
      PublishingBalances(w, agent, budgets);
    case _ =>
  }

  /** In every interleaving, each metered row's consumed and remaining units add up to what was published. */
  lemma {:induction false} ConsumedPlusRemainingIsPublished(states: seq<World>, actions: seq<Action>)
    requires IsRun(states, actions)
    ensures Balanced(states[|actions|])
    decreases |actions|
  {
    if actions != [] {
      var n := |actions| - 1;
      ConsumedPlusRemainingIsPublished(states[..n + 1], actions[..n]);
      StepBalances(states[n], actions[n]);
    }
  }
}
