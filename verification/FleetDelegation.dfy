/**
 Delegation through the shared store: what racing governors publish are the
 durable moves of the delegation machine, so its theorem on chains holds of the
 rows of the fleet.
 */
module FleetDelegation {
  import opened Permissions
  import opened Authorities
  import opened Fleet
  import opened AuthorityStore
  import opened DurableAuthority
  import Delegation

  /** Coverage and ceilings of the rows of one agent; counters are left out. */
  function CeilingsOf(rows: Rows): Grants {
    Grants(PermissionsOf(rows), map[])
  }

  function LiveOf(st: Store): Delegation.Live {
    map a | a in st.rows :: CeilingsOf(st.rows[a])
  }

  lemma LiveOfAgent(st: Store, a: AgentId)
    ensures Delegation.AuthorityOf(LiveOf(st), a) == CeilingsOf(RowsOf(st, a))
  {
    assert PermissionsOf(map[]) == {};
  }

  lemma ReadingHasCeilings(rows: Rows, g: Grants)
    requires IsReading(rows, g)
    ensures Delegation.Published(g) == CeilingsOf(rows)
  {}

  /** `ps` lists the permissions of `g`, no two of them on one row. */
  ghost predicate Lists(ps: seq<Permission>, g: Grants) {
    DistinctRows(ps) && forall p :: p in ps <==> p in g.permissions
  }

  lemma PublishedList(ps: seq<Permission>, g: Grants)
    requires Lists(ps, g)
    ensures CeilingsOf(Published(BudgetsOf(ps))) == Delegation.Published(g)
  {
    forall p ensures p in PermissionsOf(Published(BudgetsOf(ps))) <==> p in g.permissions {
      PublishedReadsBack(ps, p);
    }
  }

  lemma ReplacedLive(w: World, agent: AgentId, ps: seq<Permission>, g: Grants)
    requires Lists(ps, g)
    ensures LiveOf(Publishing(w, agent, BudgetsOf(ps)).store) == LiveOf(w.store)[agent := Delegation.Published(g)]
  {
    PublishedList(ps, g);
  }

  // ---- what is published, and from which reads ----

  /**
   A hop that read the delegator at state `s` as `base` and the recipient at
   state `t` as `current`, and publishes the list `ps`.
   */
  datatype Hop = Hop(
    env: Delegation.Envelope, from: AgentId, offered: Grants, merge: bool, active: set<Permission>,
    s: nat, base: Grants, fromAuth: Grants, clamped: Grants, t: nat, current: Grants, ps: seq<Permission>)

  function MoveOf(h: Hop, to: AgentId): Delegation.Move {
    Delegation.Delegate(h.from, to, h.offered, h.merge, h.active, h.fromAuth, h.clamped)
  }

  /** Every check of the hop passed on what it read, and the list is what came out of it. */
  ghost predicate Accepted(h: Hop, to: AgentId) {
    && IsEffective(h.base, h.active, h.fromAuth)
    && Delegation.EarlyRefusal(h.env, h.from, to, h.offered, h.fromAuth).None?
    && IsClamp(h.offered, h.env.ceilings[to], h.clamped)
    && (h.merge ==> !Delegation.Collides(h.current, h.clamped))
    && Lists(h.ps, Delegation.Received(false, h.current, h.clamped, h.merge))
  }

  /** Publishing an accepted hop is a durable move of the delegation machine from the authorities it read. */
  lemma HopIsADurableMove(w: World, h: Hop, to: AgentId)
    requires Accepted(h, to)
    ensures Delegation.Moves(h.env, true, map[h.from := h.base], map[to := h.current], LiveOf(w.store), MoveOf(h, to),
                             LiveOf(Step(w, Replace(to, BudgetsOf(h.ps))).store))
  {
    ReplacedLive(w, to, h.ps, Delegation.Received(false, h.current, h.clamped, h.merge));
  }

  /** And publishing an agent's ceiling is a durable revocation. */
  lemma RevocationIsADurableMove(w: World, env: Delegation.Envelope, agent: AgentId, ps: seq<Permission>)
    requires agent in env.ceilings && Lists(ps, env.ceilings[agent])
    ensures Delegation.MovesNow(env, true, LiveOf(w.store), Delegation.Revoke(agent),
                                LiveOf(Step(w, Replace(agent, BudgetsOf(ps))).store))
  {
    ReplacedLive(w, agent, ps, env.ceilings[agent]);
  }

  /** Nothing but a publication changes what any agent holds apart from counters. */
  lemma OnlyPublicationsMove(w: World, a: Action)
    requires Enabled(w, a) && !a.Replace? && (a.Initialize? ==> a.agent in w.store.initialized)
    ensures forall b :: CeilingsOf(RowsOf(Step(w, a).store, b)) == CeilingsOf(RowsOf(w.store, b))
  {
  }

  // ---- chains of hops over the fleet's rows ----

  /** Where the publications of a run come from: a hop, or anything else, such as a ceiling. */
  type Origins = map<nat, Hop>

  ghost predicate OriginsHold(states: seq<World>, actions: seq<Action>, origins: Origins)
    requires |states| == |actions| + 1
  {
    forall i :: i in origins && i < |actions| ==> OriginHolds(states, actions, i, origins[i])
  }

  /** The hop read what the rows were at two earlier states, and its list is what action `i` publishes. */
  ghost predicate OriginHolds(states: seq<World>, actions: seq<Action>, i: nat, h: Hop)
    requires |states| == |actions| + 1 && i < |actions|
  {
    && actions[i].Replace? && actions[i].budgets == BudgetsOf(h.ps) && Accepted(h, actions[i].agent)
    && h.s <= h.t <= i
    && IsReading(RowsOf(states[h.s].store, h.from), h.base)
    && IsReading(RowsOf(states[h.t].store, actions[i].agent), h.current)
  }

  ghost predicate RowsWithin(w: World, agents: set<AgentId>, root: Grants) {
    forall a :: a in agents ==> SubsetOf(CeilingsOf(RowsOf(w.store, a)), Delegation.Published(root))
  }

  /** The agents traced back to the root after action `i`. */
  ghost function TracedNext(states: seq<World>, actions: seq<Action>, origins: Origins, traced: seq<set<AgentId>>, i: nat, root: Grants): set<AgentId>
    requires |states| == |actions| + 1 && i < |actions| && i < |traced|
  {
    var a := actions[i];
    if i in origins && origins[i].s < |traced| && origins[i].t < |traced| && a.Replace? then
      var h := origins[i];
      Delegation.Traced(h.env, true, root, traced[h.s], traced[h.t], traced[i], MoveOf(h, a.agent))
    else if a.Replace? || (a.Initialize? && a.agent !in states[i].store.initialized) then
      if SubsetOf(CeilingsOf(Published(a.budgets)), Delegation.Published(root)) then traced[i] + {a.agent} else traced[i] - {a.agent}
    else traced[i]
  }

  ghost predicate IsTrace(states: seq<World>, actions: seq<Action>, origins: Origins, traced: seq<set<AgentId>>, root: Grants)
    requires |states| == |actions| + 1
  {
    |traced| == |states| && forall i :: 0 <= i < |actions| ==> traced[i + 1] == TracedNext(states, actions, origins, traced, i, root)
  }

  lemma RowsWithinIsAllWithin(w: World, agents: set<AgentId>, root: Grants)
    ensures RowsWithin(w, agents, root) <==> Delegation.AllWithin(true, LiveOf(w.store), agents, root)
  {
    forall a | a in agents
      ensures SubsetOf(CeilingsOf(RowsOf(w.store, a)), Delegation.Published(root))
         <==> Delegation.Within(true, Delegation.AuthorityOf(LiveOf(w.store), a), root)
    {
      LiveOfAgent(w.store, a);
    }
  }

  /** What a hop read stands for the rows it was read from. */
  lemma ReadWithin(w: World, agents: set<AgentId>, agent: AgentId, g: Grants, root: Grants)
    requires IsReading(RowsOf(w.store, agent), g) && RowsWithin(w, agents, root)
    ensures Delegation.AllWithin(true, map[agent := g], agents, root)
  {
    ReadingHasCeilings(RowsOf(w.store, agent), g);
  }

  lemma HopTraced(states: seq<World>, actions: seq<Action>, origins: Origins, traced: seq<set<AgentId>>, i: nat, root: Grants)
    requires |states| == |actions| + 1 == |traced| && i < |actions|
    requires Coherent(Delegation.Published(root))
    requires i in origins && OriginHolds(states, actions, i, origins[i])
    requires states[i + 1] == Step(states[i], actions[i])
    requires forall n :: 0 <= n <= i ==> RowsWithin(states[n], traced[n], root)
    ensures RowsWithin(states[i + 1], TracedNext(states, actions, origins, traced, i, root), root)
  {
    var h, to := origins[i], actions[i].agent;
    var now, after := LiveOf(states[i].store), LiveOf(states[i + 1].store);
    HopIsADurableMove(states[i], h, to);
    assert actions[i] == Replace(to, BudgetsOf(h.ps));
    ReadWithin(states[h.s], traced[h.s], h.from, h.base, root);
    ReadWithin(states[h.t], traced[h.t], to, h.current, root);
    RowsWithinIsAllWithin(states[i], traced[i], root);
    Delegation.StepTraced(h.env, true, map[h.from := h.base], map[to := h.current], now, MoveOf(h, to), after,
                          traced[h.s], traced[h.t], traced[i], root);
    RowsWithinIsAllWithin(states[i + 1], TracedNext(states, actions, origins, traced, i, root), root);
  }

  /** A publication that is no hop is traced only when it is itself within the root. */
  lemma OtherTraced(states: seq<World>, actions: seq<Action>, origins: Origins, traced: seq<set<AgentId>>, i: nat, root: Grants)
    requires |states| == |actions| + 1 == |traced| && i < |actions| && i !in origins
    requires Enabled(states[i], actions[i]) && states[i + 1] == Step(states[i], actions[i])
    requires RowsWithin(states[i], traced[i], root)
    ensures RowsWithin(states[i + 1], TracedNext(states, actions, origins, traced, i, root), root)
  {
    var a := actions[i];
    if !a.Replace? && (a.Initialize? ==> a.agent in states[i].store.initialized) {
      OnlyPublicationsMove(states[i], a);
    }
  }

  lemma NoRowsWithin(agents: set<AgentId>, root: Grants)
    ensures RowsWithin(EMPTY, agents, root)
  {
    forall a ensures CeilingsOf(RowsOf(EMPTY.store, a)).permissions == {} {}
  }

  /**
   However governors race over one store, no agent traced back to a root by
   accepted hops has rows beyond the root in coverage or in any ceiling on a
   budget.
   */
  lemma FleetChainsNeverExpand(states: seq<World>, actions: seq<Action>, origins: Origins, traced: seq<set<AgentId>>, root: Grants)
    requires IsRun(states, actions) && OriginsHold(states, actions, origins)
    requires IsTrace(states, actions, origins, traced, root)
    requires Coherent(Delegation.Published(root))
    ensures forall i :: 0 <= i <= |actions| ==> RowsWithin(states[i], traced[i], root)
  {
    NoRowsWithin(traced[0], root);
    for n := 0 to |actions|
      invariant forall i :: 0 <= i <= n ==> RowsWithin(states[i], traced[i], root)
    {
      if n in origins {
        HopTraced(states, actions, origins, traced, n, root);
      } else {
        OtherTraced(states, actions, origins, traced, n, root);
      }
      assert traced[n + 1] == TracedNext(states, actions, origins, traced, n, root);
    }
  }
}
