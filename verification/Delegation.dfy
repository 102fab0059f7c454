/**
 The delegation state machine over a whole fleet: every agent's live authority
 under delegation, merging delegation, revocation, spending and restart, both
 in memory and through durable publication.
 */
module Delegation {
  import opened Prelude
  import opened Permissions
  import opened Authorities

  type AgentId = string
  type Live = map<AgentId, Grants>

  datatype Envelope = Envelope(
    ceilings: map<AgentId, Grants>,
    roles: map<AgentId, string>,
    allowedDelegations: map<string, set<string>>)

  datatype Refusal =
    | UnknownDelegator
    | UnknownRecipient
    | RoleViolation
    | NotHeld
    | MergeConflict
    | AuditFailed

  function AuthorityOf(live: Live, agent: AgentId): Grants {
    if agent in live then live[agent] else NOTHING
  }

  /** The role map forbids the pair only when both agents have a non-empty role. */
  predicate RolesAllow(env: Envelope, from: AgentId, to: AgentId) {
    from in env.roles && env.roles[from] != "" && to in env.roles && env.roles[to] != "" ==>
      env.roles[from] in env.allowedDelegations && env.roles[to] in env.allowedDelegations[env.roles[from]]
  }

  /** The first reason, in the order the checks run, to refuse an offer before clamping it. */
  ghost function EarlyRefusal(env: Envelope, from: AgentId, to: AgentId, offered: Grants, fromAuth: Grants): Option<Refusal> {
    if from !in env.ceilings then Some(UnknownDelegator)
    else if to !in env.ceilings then Some(UnknownRecipient)
    else if !RolesAllow(env, from, to) then Some(RoleViolation)
    else if !SubsetOf(offered, fromAuth) then Some(NotHeld)
    else None
  }

  ghost predicate Collides(current: Grants, added: Grants) {
    exists p, q :: p in current.permissions && q in added.permissions && Key(p) == Key(q)
  }

  /** How an offer ends: the first check that fails, in order, or success. `current` is what the recipient holds. */
  ghost function Ruling(env: Envelope, from: AgentId, to: AgentId, offered: Grants, fromAuth: Grants,
                        current: Grants, clamped: Grants, merge: bool, auditOk: bool): Result<(), Refusal> {
    var early := EarlyRefusal(env, from, to, offered, fromAuth);
    if early.Some? then Err(early.value)
    else if merge && Collides(current, clamped) then Err(MergeConflict)
    else if !auditOk then Err(AuditFailed)
    else Ok(())
  }

  /** The union of two grants; the added counters win. */
  function Merged(current: Grants, added: Grants): Grants {
    Grants(current.permissions + added.permissions, current.stored + added.stored)
  }

  /** What a durable publication leaves: every counter starts again at its ceiling. */
  function Published(g: Grants): Grants {
    g.(stored := map[])
  }

  datatype Move =
    | Delegate(from: AgentId, to: AgentId, offered: Grants, merge: bool,
               active: set<Permission>, fromAuth: Grants, clamped: Grants)
    | Revoke(agent: AgentId)
    | Spend(agent: AgentId, charged: Permission, amount: nat)
    | Restart

  /**
   `live` becomes `next` by an accepted call. A hop saw the delegator as of
   `fromRead` and the recipient as of `toRead`; `durable` selects publication
   through the store, where both may be out of date by then.
   */
  ghost predicate Moves(env: Envelope, durable: bool, fromRead: Live, toRead: Live, live: Live, m: Move, next: Live) {
    match m
    case Delegate(from, to, offered, merge, active, fromAuth, clamped) =>
      && IsEffective(AuthorityOf(fromRead, from), active, fromAuth)
      && EarlyRefusal(env, from, to, offered, fromAuth).None?
      && IsClamp(offered, env.ceilings[to], clamped)
      && (merge ==> !Collides(AuthorityOf(toRead, to), clamped))
      && next == live[to := Received(durable, AuthorityOf(toRead, to), clamped, merge)]
    case Revoke(agent) =>
      && agent in env.ceilings
      && next == live[agent := if durable then Published(env.ceilings[agent]) else env.ceilings[agent]]
    case Spend(agent, charged, amount) =>
      && agent in live && charged in live[agent].permissions && charged.maxBudget.Some?
      && Remaining(charged, live[agent].stored) >= amount
      && next == live[agent := Charged(live[agent], charged, amount)]
    case Restart =>
      next == if durable then live else env.ceilings
  }

  /** A call that reads the fleet as it is, as every call without a store does. */
  ghost predicate MovesNow(env: Envelope, durable: bool, live: Live, m: Move, next: Live) {
    Moves(env, durable, live, live, live, m, next)
  }

  /** One counter charged with `amount` units. */
  function Charged(g: Grants, p: Permission, amount: nat): Grants
    requires p.maxBudget.Some?
  {
    g.(stored := g.stored[Key(p) := Remaining(p, g.stored) - amount])
  }

  function Received(durable: bool, current: Grants, clamped: Grants, merge: bool): Grants {
    var r := if merge then Merged(current, clamped) else clamped;
    if durable then Published(r) else r
  }

  /** The positions of a run at which a hop read the delegator and then the recipient. */
  datatype Reads = Reads(from: nat, to: nat)

  /** Move `i` of a run. Through the store, governors race: a hop may publish what it computed from any earlier states. */
  ghost predicate RunStep(env: Envelope, durable: bool, states: seq<Live>, moves: seq<Move>, readAt: seq<Reads>, i: nat)
    requires i < |moves| == |readAt| && |states| == |moves| + 1
  {
    && readAt[i].from <= readAt[i].to <= i
    && (!durable ==> readAt[i].from == i)
    && Moves(env, durable, states[readAt[i].from], states[readAt[i].to], states[i], moves[i], states[i + 1])
  }

  ghost predicate IsRun(env: Envelope, durable: bool, states: seq<Live>, moves: seq<Move>, readAt: seq<Reads>) {
    && |states| == |moves| + 1 && |readAt| == |moves|
    && forall i :: 0 <= i < |moves| ==> RunStep(env, durable, states, moves, readAt, i)
  }

  /** A spend of the algebra changes nothing or is a `Spend` of the permission that governs the request. */
  lemma ConsumingIsASpend(env: Envelope, durable: bool, live: Live, agent: AgentId, required: Permission, amount: nat)
    requires agent in live
    ensures
      var m := Match(live[agent].permissions, required);
      var next := live[agent := Consume(live[agent], required, amount)];
      next == live || (m.Some? && MovesNow(env, durable, live, Spend(agent, m.value, amount), next))
  {}

  // ---- merging ----

  /** Every permission of a merge keeps the claim it had on the side it came from. */
  ghost predicate ClaimsKept(current: Grants, added: Grants) {
    forall p :: p in current.permissions + added.permissions && p.maxBudget.Some? ==>
      Claimed(p, Merged(current, added).stored) == Claimed(p, if p in added.permissions then added.stored else current.stored)
  }

  /** Counters are stored under the keys of held permissions only, and for every metered one. */
  ghost predicate CountersHeld(g: Grants) {
    && (forall k {:trigger k in g.stored} :: k in g.stored ==> exists q :: q in g.permissions && Key(q) == k)
    && (forall q :: q in g.permissions && q.maxBudget.Some? ==> Key(q) in g.stored)
  }

  lemma ClampCountersHeld(offer: Grants, ceiling: Grants, added: Grants)
    requires IsClamp(offer, ceiling, added)
    ensures CountersHeld(added)
  {}

  /** A merge without collision disturbs no counter on either side. */
  lemma MergeKeepsClaims(current: Grants, added: Grants)
    requires CountersHeld(added) && !Collides(current, added)
    ensures ClaimsKept(current, added)
  {}

  lemma MergedContained(current: Grants, added: Grants, root: Grants)
    requires ClaimsKept(current, added) && SubsetOf(current, root) && SubsetOf(added, root)
    ensures SubsetOf(Merged(current, added), root)
  {}

  // ---- no delegation expands authority ----

  /** What a hop clamps out of a contained base is itself contained, whatever restrictions were active. */
  lemma HopContained(base: Grants, active: set<Permission>, fromAuth: Grants, offered: Grants,
                     ceiling: Grants, clamped: Grants, root: Grants)
    requires IsEffective(base, active, fromAuth) && SubsetOf(offered, fromAuth) && IsClamp(offered, ceiling, clamped)
    requires Coherent(root) && NonNegative(root) && SubsetOf(base, root)
    ensures SubsetOf(clamped, root)
  {
    EffectiveIsExactlyUntouched(base, active, fromAuth);
    ShrinkingStaysContained(base, fromAuth, root);
    SubsetTransitive(offered, fromAuth, root);
    ClampWithinSource(offered, root, ceiling, clamped);
  }

  // ---- what publication through the store keeps ----

  /** Containment survives forgetting the counters on both sides. */
  lemma PublishedSubset(a: Grants, b: Grants)
    requires SubsetOf(a, b)
    ensures SubsetOf(Published(a), Published(b))
  {}

  lemma PublishedClampWithin(offer: Grants, ceiling: Grants, clamped: Grants, root: Grants)
    requires SubsetOf(Published(offer), Published(root)) && IsClamp(offer, ceiling, clamped)
    ensures SubsetOf(Published(clamped), Published(root))
  {
    ClampTightens(offer, ceiling, clamped);
    PublishedTightens(offer, clamped);
    TighteningStaysContained(Published(offer), Published(root), Published(clamped));
  }

  lemma PublishedTightens(a: Grants, r: Grants)
    requires Tightens(a, r)
    ensures Tightens(Published(a), Published(r))
  {
    forall q | q in r.permissions ensures exists p :: p in a.permissions && TightenedFrom(p, map[], q, map[]) {
      var p :| p in a.permissions && TightenedFrom(p, a.stored, q, r.stored);
      assert TightenedFrom(p, map[], q, map[]);
    }
  }

  lemma PublishedHopContained(base: Grants, active: set<Permission>, fromAuth: Grants, offered: Grants,
                              ceiling: Grants, clamped: Grants, root: Grants)
    requires IsEffective(base, active, fromAuth) && SubsetOf(offered, fromAuth) && IsClamp(offered, ceiling, clamped)
    requires Coherent(Published(root)) && SubsetOf(Published(base), Published(root))
    ensures SubsetOf(Published(clamped), Published(root))
  {
    EffectiveIsExactlyUntouched(base, active, fromAuth);
    assert Shrinks(Published(base), Published(fromAuth));
    ShrinkingStaysContained(Published(base), Published(fromAuth), Published(root));
    PublishedSubset(offered, fromAuth);
    SubsetTransitive(Published(offered), Published(fromAuth), Published(root));
    PublishedClampWithin(offered, ceiling, clamped, root);
  }

  // ---- chains of hops ----

  /** What a root bounds: through the store coverage and ceilings, in memory the counters as well. */
  function Seen(durable: bool, g: Grants): Grants {
    if durable then Published(g) else g
  }

  ghost predicate Within(durable: bool, g: Grants, root: Grants) {
    SubsetOf(Seen(durable, g), Seen(durable, root))
  }

  ghost predicate AllWithin(durable: bool, live: Live, agents: set<AgentId>, root: Grants) {
    forall a :: a in agents ==> Within(durable, AuthorityOf(live, a), root)
  }

  /**
   The agents whose authority is traced back to `root` after a move. A
   hop from a traced agent traces the recipient; a merge needs the recipient
   traced as well; any other new authority does so only when the ceiling is
   itself within the root.
   */
  ghost function Traced(env: Envelope, durable: bool, root: Grants, atFrom: set<AgentId>, atTo: set<AgentId>,
                        now: set<AgentId>, m: Move): set<AgentId> {
    match m
    case Delegate(from, to, _, merge, _, _, _) =>
      if from in atFrom && (merge ==> to in atTo) then now + {to} else now - {to}
    case Revoke(agent) =>
      if agent in env.ceilings && Within(durable, env.ceilings[agent], root) then now + {agent} else now - {agent}
    case Spend(_, _, _) => now
    case Restart =>
      if durable then now else set a | a in env.ceilings && Within(durable, env.ceilings[a], root)
  }

  ghost predicate TraceStep(env: Envelope, durable: bool, root: Grants, moves: seq<Move>, readAt: seq<Reads>,
                            traced: seq<set<AgentId>>, i: nat)
    requires i < |moves| == |readAt| && |traced| == |moves| + 1
  {
    && readAt[i].from <= i && readAt[i].to <= i
    && traced[i + 1] == Traced(env, durable, root, traced[readAt[i].from], traced[readAt[i].to], traced[i], moves[i])
  }

  ghost predicate IsTrace(env: Envelope, durable: bool, root: Grants, moves: seq<Move>, readAt: seq<Reads>,
                          traced: seq<set<AgentId>>) {
    && |traced| == |moves| + 1 && |readAt| == |moves|
    && forall i :: 0 <= i < |moves| ==> TraceStep(env, durable, root, moves, readAt, traced, i)
  }

  lemma ReceivedWithin(durable: bool, current: Grants, offered: Grants, ceiling: Grants, clamped: Grants, merge: bool, root: Grants)
    requires IsClamp(offered, ceiling, clamped) && (merge ==> !Collides(current, clamped))
    requires Within(durable, clamped, root) && (merge ==> Within(durable, current, root))
    ensures Within(durable, Received(durable, current, clamped, merge), root)
  {
    if merge && !durable {
      ClampCountersHeld(offered, ceiling, clamped);
      MergeKeepsClaims(current, clamped);
      MergedContained(current, clamped, root);
    }
  }

  lemma HopWithin(env: Envelope, durable: bool, fromRead: Live, toRead: Live, live: Live, m: Move, next: Live, root: Grants)
    requires m.Delegate? && Moves(env, durable, fromRead, toRead, live, m, next)
    requires Coherent(Seen(durable, root)) && NonNegative(Seen(durable, root))
    requires Within(durable, AuthorityOf(fromRead, m.from), root)
    requires m.merge ==> Within(durable, AuthorityOf(toRead, m.to), root)
    ensures Within(durable, next[m.to], root)
  {
    var base, ceiling := AuthorityOf(fromRead, m.from), env.ceilings[m.to];
    if durable {
      PublishedHopContained(base, m.active, m.fromAuth, m.offered, ceiling, m.clamped, root);
    } else {
      HopContained(base, m.active, m.fromAuth, m.offered, ceiling, m.clamped, root);
    }
    ReceivedWithin(durable, AuthorityOf(toRead, m.to), m.offered, ceiling, m.clamped, m.merge, root);
  }

  lemma ChargedShrinks(g: Grants, p: Permission, amount: nat)
    requires p.maxBudget.Some?
    ensures Shrinks(g, Charged(g, p, amount))
  {}

  lemma StepTraced(env: Envelope, durable: bool, fromRead: Live, toRead: Live, live: Live, m: Move, next: Live,
                   atFrom: set<AgentId>, atTo: set<AgentId>, now: set<AgentId>, root: Grants)
    requires Moves(env, durable, fromRead, toRead, live, m, next)
    requires Coherent(Seen(durable, root)) && NonNegative(Seen(durable, root))
    requires AllWithin(durable, fromRead, atFrom, root) && AllWithin(durable, toRead, atTo, root)
    requires AllWithin(durable, live, now, root)
    ensures AllWithin(durable, next, Traced(env, durable, root, atFrom, atTo, now, m), root)
  {
    match m
    case Delegate(from, to, _, merge, _, _, _) =>
      if from in atFrom && (merge ==> to in atTo) {
        HopWithin(env, durable, fromRead, toRead, live, m, next, root);
      }
    case Spend(agent, charged, amount) =>
      if agent in now {
        ChargedShrinks(live[agent], charged, amount);
        ShrinkingStaysContained(Seen(durable, live[agent]), Seen(durable, next[agent]), Seen(durable, root));
      }
    case _ =>
  }

  lemma TracedStaysWithin(env: Envelope, durable: bool, states: seq<Live>, moves: seq<Move>, readAt: seq<Reads>,
                          traced: seq<set<AgentId>>, root: Grants)
    requires IsRun(env, durable, states, moves, readAt) && IsTrace(env, durable, root, moves, readAt, traced)
    requires Coherent(Seen(durable, root)) && NonNegative(Seen(durable, root))
    requires AllWithin(durable, states[0], traced[0], root)
    ensures forall i :: 0 <= i <= |moves| ==> AllWithin(durable, states[i], traced[i], root)
  {
    for n := 0 to |moves|
      invariant forall i :: 0 <= i <= n ==> AllWithin(durable, states[i], traced[i], root)
    {
      assert RunStep(env, durable, states, moves, readAt, n) && TraceStep(env, durable, root, moves, readAt, traced, n);
      var f, t := readAt[n].from, readAt[n].to;
      StepTraced(env, durable, states[f], states[t], states[n], moves[n], states[n + 1], traced[f], traced[t], traced[n], root);
    }
  }

  /**
   After any number of hops, merges, restrictions, revocations, spends and
   restarts, in memory, every agent whose authority is traced back to the root
   holds no more than the root, counters included.
   */
  lemma ChainsNeverExpand(env: Envelope, states: seq<Live>, moves: seq<Move>, readAt: seq<Reads>,
                          traced: seq<set<AgentId>>, root: Grants)
    requires IsRun(env, false, states, moves, readAt) && IsTrace(env, false, root, moves, readAt, traced)
    requires Coherent(root) && NonNegative(root)
    requires forall a :: a in traced[0] ==> SubsetOf(AuthorityOf(states[0], a), root)
    ensures forall i, a :: 0 <= i <= |moves| && a in traced[i] ==> SubsetOf(AuthorityOf(states[i], a), root)
  {
    TracedStaysWithin(env, false, states, moves, readAt, traced, root);
    forall i, a | 0 <= i <= |moves| && a in traced[i] ensures SubsetOf(AuthorityOf(states[i], a), root) {
      assert Within(false, AuthorityOf(states[i], a), root);
    }
  }

  /** The same with an agent's own authority as the root: whatever is handed on from it stays within it. */
  lemma ChainStaysWithinItsRoot(env: Envelope, states: seq<Live>, moves: seq<Move>, readAt: seq<Reads>,
                                traced: seq<set<AgentId>>, first: AgentId)
    requires IsRun(env, false, states, moves, readAt) && |traced| > 0 && traced[0] == {first}
    requires IsTrace(env, false, AuthorityOf(states[0], first), moves, readAt, traced)
    requires NonOverlapping(AuthorityOf(states[0], first)) && NonNegative(AuthorityOf(states[0], first))
    ensures forall a :: a in traced[|moves|] ==> SubsetOf(AuthorityOf(states[|moves|], a), AuthorityOf(states[0], first))
  {
    NonOverlappingIsCoherent(AuthorityOf(states[0], first));
    ChainsNeverExpand(env, states, moves, readAt, traced, AuthorityOf(states[0], first));
  }

  /**
   Through the store, with governors racing so that every hop publishes from
   stale reads, no traced agent exceeds the root in coverage or in any ceiling
   on a budget.
   */
  lemma DurableChainsNeverExpandCeilings(env: Envelope, states: seq<Live>, moves: seq<Move>, readAt: seq<Reads>,
                                         traced: seq<set<AgentId>>, root: Grants)
    requires IsRun(env, true, states, moves, readAt) && IsTrace(env, true, root, moves, readAt, traced)
    requires Coherent(Published(root))
    requires forall a :: a in traced[0] ==> SubsetOf(Published(AuthorityOf(states[0], a)), Published(root))
    ensures forall i, a :: 0 <= i <= |moves| && a in traced[i] ==>
              SubsetOf(Published(AuthorityOf(states[i], a)), Published(root))
  {
    TracedStaysWithin(env, true, states, moves, readAt, traced, root);
    forall i, a | 0 <= i <= |moves| && a in traced[i] ensures SubsetOf(Published(AuthorityOf(states[i], a)), Published(root)) {
      assert Within(true, AuthorityOf(states[i], a), root);
    }
  }

  // ---- counters along a run, and what one hop leaves ----

  ghost predicate NoNegativeCounter(g: Grants) {
    forall k :: k in g.stored ==> g.stored[k] >= 0
  }

  ghost predicate AllNonNegative(live: Live) {
    forall a :: a in live ==> NoNegativeCounter(live[a])
  }

  lemma StepNonNegative(env: Envelope, durable: bool, fromRead: Live, toRead: Live, live: Live, m: Move, next: Live)
    requires Moves(env, durable, fromRead, toRead, live, m, next)
    requires AllNonNegative(env.ceilings) && AllNonNegative(toRead) && AllNonNegative(live)
    ensures AllNonNegative(next)
  {
    if m.Delegate? {
      assert NoNegativeCounter(m.clamped);
      assert NoNegativeCounter(AuthorityOf(toRead, m.to));
      assert NoNegativeCounter(next[m.to]);
    }
  }

  lemma CountersStayNonNegative(env: Envelope, durable: bool, states: seq<Live>, moves: seq<Move>, readAt: seq<Reads>)
    requires IsRun(env, durable, states, moves, readAt) && AllNonNegative(env.ceilings) && AllNonNegative(states[0])
    ensures forall i :: 0 <= i <= |moves| ==> AllNonNegative(states[i])
  {
    for n := 0 to |moves|
      invariant forall i :: 0 <= i <= n ==> AllNonNegative(states[i])
    {
      assert RunStep(env, durable, states, moves, readAt, n);
      var f, t := readAt[n].from, readAt[n].to;
      StepNonNegative(env, durable, states[f], states[t], states[n], moves[n], states[n + 1]);
    }
  }

  lemma EffectiveNonNegative(base: Grants, active: set<Permission>, r: Grants)
    requires IsEffective(base, active, r) && NoNegativeCounter(base)
    ensures NonNegative(r)
  {
    if active != {} {
      forall k | k in r.stored ensures r.stored[k] >= 0 {
        var p :| p in r.permissions && Key(p) == k && Carries(base, p, r.stored[k]);
      }
    }
  }

  /**
   In memory, from an envelope without negative counters, every accepted
   replacing hop of every run leaves the recipient inside both the delegator's
   effective authority and, when that is unspent, its own ceiling.
   */
  lemma HopWithinBothEnds(env: Envelope, states: seq<Live>, moves: seq<Move>, readAt: seq<Reads>, i: nat)
    requires IsRun(env, false, states, moves, readAt) && AllNonNegative(env.ceilings) && AllNonNegative(states[0])
    requires i < |moves| && moves[i].Delegate? && !moves[i].merge
    ensures
      var m := moves[i];
      && SubsetOf(AuthorityOf(states[i + 1], m.to), m.fromAuth)
      && (m.to in env.ceilings && FullCeiling(env.ceilings[m.to]) ==>
            SubsetOf(AuthorityOf(states[i + 1], m.to), env.ceilings[m.to]))
  {
    var m := moves[i];
    assert RunStep(env, false, states, moves, readAt, i);
    CountersStayNonNegative(env, false, states, moves, readAt);
    EffectiveNonNegative(AuthorityOf(states[i], m.from), m.active, m.fromAuth);
    ClampWithinSource(m.offered, m.fromAuth, env.ceilings[m.to], m.clamped);
    if FullCeiling(env.ceilings[m.to]) {
      ClampWithinCeiling(m.offered, env.ceilings[m.to], m.clamped);
    }
  }

  // ---- when a durable hop renews a budget ----

  /** `r` is what a durable hop publishes of an offer that `source` accepts as its own. */
  ghost predicate IsPublishedHop(source: Grants, r: Grants) {
    exists offer, clamped :: IsAcceptedClamp(source, offer, clamped) && r == Published(clamped)
  }

  /**
   A durable hop restarts the counters it publishes. It stays within what the
   delegator had left exactly when the delegator had spent nothing.
   */
  lemma DurableHopWithinRemainingExactly(source: Grants)
    ensures FullCeiling(source) <==> forall r :: IsPublishedHop(source, r) ==> SubsetOf(r, source)
  {
    if FullCeiling(source) {
      forall r | IsPublishedHop(source, r) ensures SubsetOf(r, source) {
        PublishedHopWithinFull(source, r);
      }
    } else {
      var m :| IsMatch(source.permissions, m, m) && m.maxBudget.Some?
               && Remaining(m, source.stored) < m.maxBudget.value;
      MeteredOfferPublished(source, m);
      SpentBudgetRenewed(source, m);
    }
  }

  lemma PublishedHopWithinFull(source: Grants, r: Grants)
    requires FullCeiling(source) && IsPublishedHop(source, r)
    ensures SubsetOf(r, source)
  {
    var offer, clamped :| IsAcceptedClamp(source, offer, clamped) && r == Published(clamped);
    var ceiling :| IsClamp(offer, ceiling, clamped);
    PublishedSubset(offer, source);
    PublishedClampWithin(offer, ceiling, clamped, source);
    forall q | q in r.permissions ensures Contained(q, r.stored, source) {
      assert Contained(q, map[], Published(source));
      MatchGovernsItself(source.permissions, q, Match(source.permissions, q).value);
    }
  }

  lemma MeteredOfferPublished(source: Grants, m: Permission)
    requires IsMatch(source.permissions, m, m) && m.maxBudget.Some?
    ensures IsPublishedHop(source, Published(ClampOfOffer(source, m)))
  {
    MeteredOfferAccepted(source, m);
  }

  lemma SpentBudgetRenewed(source: Grants, m: Permission)
    requires IsMatch(source.permissions, m, m) && m.maxBudget.Some?
    requires Remaining(m, source.stored) < m.maxBudget.value
    ensures !SubsetOf(Published(ClampOfOffer(source, m)), source)
  {
    MatchIs(source.permissions, m, m);
    assert !Contained(m, map[], source);
  }

  // ---- live authority stays below the envelope ceiling ----

  /** `q` authorises `p` with at least its budget and at least what it may still claim. */
  predicate Dominates(q: Permission, ceiling: Grants, p: Permission, stored: map<string, int>) {
    && Covers(q, p)
    && (q.maxBudget.Some? ==>
          && p.maxBudget.Some?
          && p.maxBudget.value <= q.maxBudget.value
          && Claimed(p, stored) <= Remaining(q, ceiling.stored))
  }

  ghost predicate Below(g: Grants, ceiling: Grants) {
    forall p :: p in g.permissions ==> exists q :: q in ceiling.permissions && Dominates(q, ceiling, p, g.stored)
  }

  ghost predicate Unspent(c: Grants) {
    forall p :: p in c.permissions && p.maxBudget.Some? ==> Remaining(p, c.stored) >= p.maxBudget.value
  }

  ghost predicate UnspentCeilings(env: Envelope) {
    forall a :: a in env.ceilings ==> Unspent(env.ceilings[a])
  }

  ghost predicate BelowCeilings(env: Envelope, live: Live) {
    forall a :: a in live ==> a in env.ceilings && Below(live[a], env.ceilings[a])
  }

  lemma ContainedIsBelow(g: Grants, ceiling: Grants)
    requires SubsetOf(g, ceiling)
    ensures Below(g, ceiling)
  {}

  lemma ShrinkingStaysBelow(x: Grants, y: Grants, ceiling: Grants)
    requires Shrinks(x, y) && Below(x, ceiling)
    ensures Below(y, ceiling)
  {}

  /** Below an unspent ceiling, restarting the counters changes nothing. */
  lemma PublishedStaysBelow(g: Grants, ceiling: Grants)
    requires Unspent(ceiling) && Below(g, ceiling)
    ensures Below(Published(g), ceiling)
  {}

  lemma MergedStaysBelow(current: Grants, added: Grants, ceiling: Grants)
    requires ClaimsKept(current, added) && Below(current, ceiling) && Below(added, ceiling)
    ensures Below(Merged(current, added), ceiling)
  {}

  lemma CeilingBelowItself(c: Grants)
    ensures Below(c, c)
  {}

  lemma HopStaysBelow(env: Envelope, durable: bool, fromRead: Live, toRead: Live, live: Live, m: Move, next: Live)
    requires m.Delegate? && Moves(env, durable, fromRead, toRead, live, m, next)
    requires UnspentCeilings(env) && BelowCeilings(env, toRead)
    ensures Below(next[m.to], env.ceilings[m.to])
  {
    var ceiling, current := env.ceilings[m.to], AuthorityOf(toRead, m.to);
    ClampWithinCeiling(m.offered, ceiling, m.clamped);
    ContainedIsBelow(m.clamped, ceiling);
    if m.merge {
      ClampCountersHeld(m.offered, ceiling, m.clamped);
      MergeKeepsClaims(current, m.clamped);
      MergedStaysBelow(current, m.clamped, ceiling);
    }
    PublishedStaysBelow(if m.merge then Merged(current, m.clamped) else m.clamped, ceiling);
  }

  lemma StepStaysBelow(env: Envelope, durable: bool, fromRead: Live, toRead: Live, live: Live, m: Move, next: Live)
    requires Moves(env, durable, fromRead, toRead, live, m, next) && UnspentCeilings(env)
    requires BelowCeilings(env, toRead) && BelowCeilings(env, live)
    ensures BelowCeilings(env, next)
  {
    match m
    case Delegate(_, _, _, _, _, _, _) =>
      HopStaysBelow(env, durable, fromRead, toRead, live, m, next);
    case Revoke(agent) =>
      CeilingBelowItself(env.ceilings[agent]);
      PublishedStaysBelow(env.ceilings[agent], env.ceilings[agent]);
    case Spend(agent, charged, amount) =>
      ChargedShrinks(live[agent], charged, amount);
      ShrinkingStaysBelow(live[agent], next[agent], env.ceilings[agent]);
    case Restart =>
      forall a | a in env.ceilings ensures Below(env.ceilings[a], env.ceilings[a]) {
        CeilingBelowItself(env.ceilings[a]);
      }
  }

  /**
   In every reachable state, in memory and through the store with every hop
   published from stale reads, no agent is above its envelope ceiling.
   */
  lemma ReachableStaysBelowCeilings(env: Envelope, durable: bool, states: seq<Live>, moves: seq<Move>, readAt: seq<Reads>)
    requires IsRun(env, durable, states, moves, readAt) && UnspentCeilings(env) && BelowCeilings(env, states[0])
    ensures forall i :: 0 <= i <= |moves| ==> BelowCeilings(env, states[i])
  {
    for n := 0 to |moves|
      invariant forall i :: 0 <= i <= n ==> BelowCeilings(env, states[i])
    {
      assert RunStep(env, durable, states, moves, readAt, n);
      var f, t := readAt[n].from, readAt[n].to;
      StepStaysBelow(env, durable, states[f], states[t], states[n], moves[n], states[n + 1]);
    }
  }
}
