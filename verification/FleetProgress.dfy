/**
 What one governor achieves when nobody interferes, and exactly when each step
 of an evaluation over the store denies.
 */
module FleetProgress {
  import opened Prelude
  import opened Permissions
  import opened Decisions
  import opened Replay
  import opened Fleet
  import Quorum
  import Restrictions

  // ---- exactly when a step denies ----

  /** A claim is denied exactly when it is needed and already taken; otherwise it is taken and nothing else changes. */
  lemma ClaimStepExactly(w: World, a: Action)
    requires (a.ClaimNonce? || a.ClaimProposal?) && Enabled(w, a)
    ensures
      var f, next := w.flights[a.g], Step(w, a);
      var claim := if a.ClaimNonce? then NonceClaim("default", f.req.agent, f.req.nonce) else ProposalClaim("default", f.req.proposalId);
      var needed := if a.ClaimNonce? then f.req.nonce != "" else f.req.dedupe;
      var passed := f.(stage := if a.ClaimNonce? then NonceClaimed else ClaimsHeld);
      && (needed && claim in w.store.claims ==>
            next == World(w.store, w.flights - {a.g}, w.log + [Decide(f.eval, HUMAN)], w.nextEval))
      && (needed && claim !in w.store.claims ==>
            next == World(w.store.(claims := w.store.claims + {claim}), w.flights[a.g := passed],
                          w.log + [Grant(f.eval, claim)], w.nextEval))
      && (!needed ==> next == World(w.store, w.flights[a.g := passed], w.log, w.nextEval))
  {}

  /** The count in a row of the step table. */
  function Reading(st: Store, scope: string): nat {
    if scope in st.counters then st.counters[scope] else 0
  }

  /** Both counters go up by one, and the attempt is denied exactly when either is past its limit. */
  lemma CountStepsExactly(w: World, g: GovId, limit: int, cap: Option<nat>)
    requires At(w, g, ClaimsHeld)
    ensures
      var f := w.flights[g];
      var counted := Step(w, CountFleet(g, limit));
      var agent := "agent:" + f.req.agent;
      var counters := w.store.counters["fleet" := Reading(w.store, "fleet") + 1][agent := Reading(w.store, agent) + 1];
      var within := Reading(w.store, "fleet") < limit && (cap.None? || Reading(w.store, agent) < cap.value);
      && Enabled(counted, CountAgent(g, cap))
      && Step(counted, CountAgent(g, cap)) ==
           if within then World(w.store.(counters := counters), w.flights[g := f.(stage := Counted)], w.log, w.nextEval)
           else World(w.store.(counters := counters), w.flights - {g}, w.log + [Decide(f.eval, HUMAN)], w.nextEval)
  {
    assert ("agent:" + w.flights[g].req.agent)[0] != "fleet"[0];
  }

  /** The first reading of authority denies exactly when nothing unrestricted covers the request or the governing row is used up. */
  lemma AuthorityStepExactly(w: World, a: Action)
    requires a.ReadRestrictions? && Enabled(w, a)
    ensures
      var f := w.flights[a.g];
      var live := Match(PermissionsOf(f.stage.live), f.req.required);
      var covered := exists p :: p in PermissionsOf(f.stage.base) && Covers(p, f.req.required)
                                 && forall x :: x in ActiveFor(w.store, f.req.agent, a.now) ==> !Covers(p, x);
      var unit := live.Some? && (live.value.maxBudget.Some? ==> f.stage.live[KeyOfPermission(live.value)].remaining >= 1);
      Step(w, a) ==
        if covered && unit then w.(flights := w.flights[a.g := f.(stage := Fleet.Authorised)])
        else World(w.store, w.flights - {a.g}, w.log + [Decide(f.eval, HUMAN)], w.nextEval)
  {
    var f := w.flights[a.g];
    var active := ActiveFor(w.store, f.req.agent, a.now);
    if p :| p in PermissionsOf(f.stage.base) && Covers(p, f.req.required) && forall x :: x in active ==> !Covers(p, x) {
      assert p in Effective(f.stage.base, active);
    }
    var live := Match(PermissionsOf(f.stage.live), f.req.required);
    if live.Some? {
      assert KeyOfPermission(live.value) in f.stage.live
             && f.stage.live[KeyOfPermission(live.value)].maxBudget == live.value.maxBudget;
    }
  }

  /** Payment denies exactly when the governing permission is metered and its row is gone or, still metered, used up. */
  lemma PaymentStepExactly(w: World, a: Action)
    requires a.ConsumeBudget? && Enabled(w, a)
    ensures
      var f, next := w.flights[a.g], Step(w, a);
      var m, rows := f.stage.matched, RowsOf(w.store, f.req.agent);
      var k := RowKey(m.name, m.scope);
      var denied := m.maxBudget.Some? && (k !in rows || (rows[k].maxBudget.Some? && rows[k].remaining < 1));
      && (denied <==> a.g !in next.flights)
      && (denied ==> next == World(w.store, w.flights - {a.g}, w.log + [Decide(f.eval, HUMAN)], w.nextEval))
      && (!denied ==> next.flights == w.flights[a.g := f.(stage := Paid(m))])
      && (!denied && m.maxBudget.Some? && rows[k].maxBudget.Some? ==>
            RowsOf(next.store, f.req.agent) == rows[k := rows[k].(remaining := rows[k].remaining - 1)])
  {}

  /** The boundary's answer decides: CONTINUE exactly when it accepts or none is wired. */
  lemma BoundaryDecidesExactly(w: World, a: Action)
    requires a.CallBoundary? && Enabled(w, a)
    ensures
      var f := w.flights[a.g];
      Step(w, a) == World(
        w.store, w.flights - {a.g},
        w.log + (if a.wired then [Execute(f.eval, f.req, f.stage.matched)] else [])
              + [Decide(f.eval, if a.wired && !a.ok then HUMAN else CONTINUE)],
        w.nextEval)
  {
    assert w.log + [] == w.log;
  }

  /** After an assessment, or the peers' ruling on a CONTINUE, the only way on is the one that decision calls for. */
  lemma DecisionLeadsOn(w: World, a: Action)
    requires (a.AssessRisk? || a.Vote?) && Enabled(w, a)
    ensures
      var d := if a.AssessRisk? then a.d else Quorum.Peers(a.votes, a.threshold, a.humanOnDisagreement);
      var next := Step(w, a);
      && next.store == w.store && a.g in next.flights && next.flights[a.g].req == w.flights[a.g].req
      && (forall expiry :: Enabled(next, ImposeRestriction(a.g, expiry)) <==> d == RESTRICT)
      && (Enabled(next, Settle(a.g)) <==> d == RECHECK || d == HUMAN)
      && (d == CONTINUE ==> if a.AssessRisk? then At(next, a.g, Assessed(CONTINUE)) else Enabled(next, ReReadBase(a.g)))
  {}

  /** A settled evaluation ends as assessed; a restriction is on the store when it has an expiry, and then ends RESTRICT. */
  lemma EndsExactly(w: World, a: Action)
    requires (a.Settle? || a.ImposeRestriction? || a.Deny? || a.Crash?) && Enabled(w, a)
    ensures
      var f, next := w.flights[a.g], Step(w, a);
      && next.flights == w.flights - {a.g}
      && (a.Settle? ==> next.log == w.log + [Decide(f.eval, f.stage.d)] && next.store == w.store)
      && (a.Deny? ==> next.log == w.log + [Decide(f.eval, HUMAN)] && next.store == w.store)
      && (a.Crash? ==> next.log == w.log && next.store == w.store)
      && (a.ImposeRestriction? ==>
            && next.log == w.log + [Decide(f.eval, RESTRICT)]
            && next.store.rows == w.store.rows
            && forall agent, x :: x in RestrictionsOf(next.store, agent) <==>
                 x in RestrictionsOf(w.store, agent)
                 || (agent == f.req.agent && a.expiry.Some? && x == Restrictions.Restriction(f.req.required, a.expiry.value)))
  {}

  /** What operators and starting governors do to the store, and to nothing else. */
  lemma StoreActsExactly(w: World, a: Action)
    requires (a.Initialize? || a.Replace? || a.Expire? || a.Lift?) && Enabled(w, a)
    ensures
      var next := Step(w, a);
      && next.flights == w.flights && next.store.claims == w.store.claims && next.store.counters == w.store.counters
      && (a.Initialize? && a.agent in w.store.initialized ==> next == w)
      && (a.Replace? || (a.Initialize? && a.agent !in w.store.initialized) ==>
            && next.store.initialized == w.store.initialized + {a.agent} && next.store.restricted == w.store.restricted
            && next.store.rows.Keys == w.store.rows.Keys + {a.agent}
            && (forall b :: b in w.store.rows && b != a.agent ==> next.store.rows[b] == w.store.rows[b])
            && next.store.rows[a.agent].Keys == a.budgets.Keys
            && (forall k :: k in a.budgets ==>
                  && next.store.rows[a.agent][k].maxBudget == a.budgets[k]
                  && (a.budgets[k].Some? ==> next.store.rows[a.agent][k].remaining == a.budgets[k].value)))
      && (a.Expire? || a.Lift? ==>
            && next.store.rows == w.store.rows && next.store.initialized == w.store.initialized
            && forall agent, x :: x in RestrictionsOf(next.store, agent) <==>
                 x in RestrictionsOf(w.store, agent) && !(agent == a.agent && x == a.r))
  {}

  // ---- an evaluation nobody interferes with ----

  ghost function RunFrom(w: World, actions: seq<Action>): Option<World> {
    if actions == [] then Some(w)
    else
      var before := RunFrom(w, actions[..|actions| - 1]);
      var a := actions[|actions| - 1];
      if before.Some? && Enabled(before.value, a) then Some(Step(before.value, a)) else None
  }

  lemma OneMore(w: World, actions: seq<Action>, before: World, a: Action)
    requires RunFrom(w, actions) == Some(before) && Enabled(before, a)
    ensures RunFrom(w, actions + [a]) == Some(Step(before, a))
  {
    assert (actions + [a])[..|actions|] == actions;
  }

  /** The identifiers are unclaimed and the counters are short of their limits. */
  predicate Admissible(st: Store, req: Request, limit: int, cap: Option<nat>) {
    && (req.nonce != "" ==> NonceClaim("default", req.agent, req.nonce) !in st.claims)
    && (req.dedupe ==> ProposalClaim("default", req.proposalId) !in st.claims)
    && Reading(st, "fleet") < limit
    && (cap.Some? ==> Reading(st, "agent:" + req.agent) < cap.value)
  }

  /** Nothing on the store stands in the way of the request. */
  ghost predicate Ready(st: Store, req: Request, limit: int, cap: Option<nat>, now: Moment, live: Permission, matched: Permission) {
    var rows := RowsOf(st, req.agent);
    && Admissible(st, req, limit, cap)
    && Match(PermissionsOf(rows), req.required) == Some(live) && CanSpend(rows, KeyOfPermission(live))
    && Resolution(rows, ActiveFor(st, req.agent, now), req.required) == Some(matched) && CanSpend(rows, KeyOfPermission(matched))
  }

  function ClaimsOf(req: Request): set<Claim> {
    (if req.nonce != "" then {NonceClaim("default", req.agent, req.nonce)} else {})
    + (if req.dedupe then {ProposalClaim("default", req.proposalId)} else {})
  }

  function GrantsOf(v: EvalId, req: Request): seq<Event> {
    (if req.nonce != "" then [Grant(v, NonceClaim("default", req.agent, req.nonce))] else [])
    + (if req.dedupe then [Grant(v, ProposalClaim("default", req.proposalId))] else [])
  }

  function AdmittedStore(st: Store, req: Request): Store {
    var agent := "agent:" + req.agent;
    st.(claims := st.claims + ClaimsOf(req),
        counters := st.counters["fleet" := Reading(st, "fleet") + 1][agent := Reading(st, agent) + 1])
  }

  lemma NonceRuns(w: World, g: GovId, f: Flight)
    requires g in w.flights && w.flights[g] == f && f.stage == Admitted
    requires f.req.nonce != "" ==> NonceClaim("default", f.req.agent, f.req.nonce) !in w.store.claims
    ensures
      var c := NonceClaim("default", f.req.agent, f.req.nonce);
      Step(w, ClaimNonce(g)) == World(
        w.store.(claims := w.store.claims + (if f.req.nonce != "" then {c} else {})),
        w.flights[g := f.(stage := NonceClaimed)],
        w.log + (if f.req.nonce != "" then [Grant(f.eval, c)] else []), w.nextEval)
  {
    ClaimStepExactly(w, ClaimNonce(g));
    assert w.log + [] == w.log && w.store.claims + {} == w.store.claims;
  }

  lemma ProposalRuns(w: World, g: GovId, f: Flight)
    requires g in w.flights && w.flights[g] == f && f.stage == NonceClaimed
    requires f.req.dedupe ==> ProposalClaim("default", f.req.proposalId) !in w.store.claims
    ensures
      var c := ProposalClaim("default", f.req.proposalId);
      Step(w, ClaimProposal(g)) == World(
        w.store.(claims := w.store.claims + (if f.req.dedupe then {c} else {})),
        w.flights[g := f.(stage := ClaimsHeld)],
        w.log + (if f.req.dedupe then [Grant(f.eval, c)] else []), w.nextEval)
  {
    ClaimStepExactly(w, ClaimProposal(g));
    assert w.log + [] == w.log && w.store.claims + {} == w.store.claims;
  }

  lemma ClaimsRun(w0: World, before: seq<Action>, w: World, g: GovId, req: Request) returns (actions: seq<Action>, end: World)
    requires RunFrom(w0, before) == Some(w) && g !in w.flights
    requires req.nonce != "" ==> NonceClaim("default", req.agent, req.nonce) !in w.store.claims
    requires req.dedupe ==> ProposalClaim("default", req.proposalId) !in w.store.claims
    ensures RunFrom(w0, actions) == Some(end)
    ensures end == World(w.store.(claims := w.store.claims + ClaimsOf(req)), w.flights[g := Flight(w.nextEval, req, ClaimsHeld)],
                         w.log + GrantsOf(w.nextEval, req), w.nextEval + 1)
  {
    var f := Flight(w.nextEval, req, Admitted);
    var w1 := Step(w, Begin(g, req));
    OneMore(w0, before, w, Begin(g, req));
    var begun := before + [Begin(g, req)];
    NonceRuns(w1, g, f);
    var w2 := Step(w1, ClaimNonce(g));
    OneMore(w0, begun, w1, ClaimNonce(g));
    ProposalRuns(w2, g, f.(stage := NonceClaimed));
    end := Step(w2, ClaimProposal(g));
    OneMore(w0, begun + [ClaimNonce(g)], w2, ClaimProposal(g));
    actions := begun + [ClaimNonce(g)] + [ClaimProposal(g)];
    ClaimsTogether(w, end, g, req);
  }

  lemma CountsRun(w0: World, before: seq<Action>, w: World, g: GovId, f: Flight, limit: int, cap: Option<nat>)
    returns (actions: seq<Action>, end: World)
    requires RunFrom(w0, before) == Some(w) && At(w, g, ClaimsHeld) && f == w.flights[g]
    requires Reading(w.store, "fleet") < limit && (cap.Some? ==> Reading(w.store, "agent:" + f.req.agent) < cap.value)
    ensures RunFrom(w0, actions) == Some(end)
    ensures
      var agent := "agent:" + f.req.agent;
      end == World(
        w.store.(counters := w.store.counters["fleet" := Reading(w.store, "fleet") + 1][agent := Reading(w.store, agent) + 1]),
        w.flights[g := f.(stage := Counted)], w.log, w.nextEval)
  {
    CountStepsExactly(w, g, limit, cap);
    OneMore(w0, before, w, CountFleet(g, limit));
    var counted := Step(w, CountFleet(g, limit));
    OneMore(w0, before + [CountFleet(g, limit)], counted, CountAgent(g, cap));
    actions, end := before + [CountFleet(g, limit)] + [CountAgent(g, cap)], Step(counted, CountAgent(g, cap));
  }

  /** Reading the rows twice and the restrictions, then an assessment of CONTINUE that the peers share. */
  lemma ReadingsRun(w0: World, before: seq<Action>, w: World, g: GovId, f: Flight, now: Moment, live: Permission, matched: Permission)
    returns (actions: seq<Action>, end: World)
    requires RunFrom(w0, before) == Some(w) && At(w, g, Counted) && f == w.flights[g]
    requires
      var rows := RowsOf(w.store, f.req.agent);
      && Match(PermissionsOf(rows), f.req.required) == Some(live) && CanSpend(rows, KeyOfPermission(live))
      && Resolution(rows, ActiveFor(w.store, f.req.agent, now), f.req.required) == Some(matched)
    ensures RunFrom(w0, actions) == Some(end)
    ensures end == World(w.store, w.flights[g := f.(stage := Fleet.Authorised)], w.log, w.nextEval)
  {
    var rows := RowsOf(w.store, f.req.agent);
    OneMore(w0, before, w, ReadLive(g));
    var w1 := Step(w, ReadLive(g));
    OneMore(w0, before + [ReadLive(g)], w1, ReadBase(g));
    var w2 := Step(w1, ReadBase(g));
    assert w2.flights[g].stage == BaseRead(rows, rows);
    OneMore(w0, before + [ReadLive(g)] + [ReadBase(g)], w2, ReadRestrictions(g, now));
    actions, end := before + [ReadLive(g)] + [ReadBase(g)] + [ReadRestrictions(g, now)], Step(w2, ReadRestrictions(g, now));
    assert end.flights == w.flights[g := f.(stage := Fleet.Authorised)];
  }

  lemma AgreementRuns(w0: World, before: seq<Action>, w: World, g: GovId, f: Flight,
                      votes: Option<seq<Quorum.Vote>>, threshold: real, humanOnDisagreement: bool)
    returns (actions: seq<Action>, end: World)
    requires RunFrom(w0, before) == Some(w) && At(w, g, Fleet.Authorised) && f == w.flights[g]
    requires Quorum.Peers(votes, threshold, humanOnDisagreement) == CONTINUE
    ensures RunFrom(w0, actions) == Some(end)
    ensures end == World(w.store, w.flights[g := f.(stage := Agreed)], w.log + [Assess(f.eval, CONTINUE), PeersAgree(f.eval)], w.nextEval)
  {
    OneMore(w0, before, w, AssessRisk(g, CONTINUE));
    var w1 := Step(w, AssessRisk(g, CONTINUE));
    var vote := Vote(g, votes, threshold, humanOnDisagreement);
    OneMore(w0, before + [AssessRisk(g, CONTINUE)], w1, vote);
    actions, end := before + [AssessRisk(g, CONTINUE)] + [vote], Step(w1, vote);
    assert end.flights == w.flights[g := f.(stage := Agreed)];
    assert end.log == w.log + [Assess(f.eval, CONTINUE), PeersAgree(f.eval)];
  }

  lemma ResolutionRuns(w0: World, before: seq<Action>, w: World, g: GovId, f: Flight, now: Moment, matched: Permission)
    returns (actions: seq<Action>, end: World)
    requires RunFrom(w0, before) == Some(w) && At(w, g, Agreed) && f == w.flights[g]
    requires Resolution(RowsOf(w.store, f.req.agent), ActiveFor(w.store, f.req.agent, now), f.req.required) == Some(matched)
    ensures RunFrom(w0, actions) == Some(end)
    ensures
      var rows, active := RowsOf(w.store, f.req.agent), ActiveFor(w.store, f.req.agent, now);
      end == World(w.store, w.flights[g := f.(stage := Resolved(matched))],
                   w.log + [Resolve(f.eval, f.req, rows, active, matched)], w.nextEval)
  {
    OneMore(w0, before, w, ReReadBase(g));
    var w1 := Step(w, ReReadBase(g));
    OneMore(w0, before + [ReReadBase(g)], w1, ReReadRestrictions(g, now));
    actions, end := before + [ReReadBase(g)] + [ReReadRestrictions(g, now)], Step(w1, ReReadRestrictions(g, now));
    assert end.flights == w.flights[g := f.(stage := Resolved(matched))];
  }

  /** The rows after the request is paid for. */
  function PaidStore(st: Store, agent: AgentId, matched: Permission): Store {
    var rows, k := RowsOf(st, agent), RowKey(matched.name, matched.scope);
    if matched.maxBudget.None? || k !in rows then st
    else st.(rows := st.rows[agent := rows[k := rows[k].(remaining := rows[k].remaining - 1)]])
  }

  function Payment(v: EvalId, agent: AgentId, matched: Permission): seq<Event> {
    if matched.maxBudget.None? then [] else [Consume(v, agent, RowKey(matched.name, matched.scope), true)]
  }

  lemma PaymentRuns(w0: World, before: seq<Action>, w: World, g: GovId, f: Flight, matched: Permission, ok: bool)
    returns (actions: seq<Action>, end: World)
    requires RunFrom(w0, before) == Some(w) && At(w, g, Resolved(matched)) && f == w.flights[g]
    requires matched in PermissionsOf(RowsOf(w.store, f.req.agent)) && CanSpend(RowsOf(w.store, f.req.agent), KeyOfPermission(matched))
    ensures RunFrom(w0, actions) == Some(end)
    ensures end == World(PaidStore(w.store, f.req.agent, matched), w.flights - {g},
                         w.log + Payment(f.eval, f.req.agent, matched)
                           + [Execute(f.eval, f.req, matched), Decide(f.eval, if ok then CONTINUE else HUMAN)], w.nextEval)
  {
    OneMore(w0, before, w, ConsumeBudget(g));
    var w1 := Step(w, ConsumeBudget(g));
    assert w1.log == w.log + Payment(f.eval, f.req.agent, matched);
    assert w1.store == PaidStore(w.store, f.req.agent, matched);
    assert w1.flights == w.flights[g := f.(stage := Paid(matched))];
    var call := CallBoundary(g, true, ok);
    BoundaryDecidesExactly(w1, call);
    OneMore(w0, before + [ConsumeBudget(g)], w1, call);
    actions, end := before + [ConsumeBudget(g)] + [call], Step(w1, call);
    assert end.flights == w.flights - {g};
    assert end.log == w.log + Payment(f.eval, f.req.agent, matched)
                       + [Execute(f.eval, f.req, matched), Decide(f.eval, if ok then CONTINUE else HUMAN)];
  }

  /**
   A request that nothing on the store stands in the way of, assessed CONTINUE
   with the peers agreeing, is executed when one governor evaluates it alone. It
   takes its claims, one count of the fleet and one of its agent, and one unit
   of the row that governs it, and leaves everything else as it was.
   */
  lemma AloneExecutes(w: World, g: GovId, req: Request, limit: int, cap: Option<nat>, now: Moment, live: Permission, matched: Permission,
                      votes: Option<seq<Quorum.Vote>>, threshold: real, humanOnDisagreement: bool, ok: bool)
    returns (actions: seq<Action>, end: World)
    requires g !in w.flights && Ready(w.store, req, limit, cap, now, live, matched)
    requires Quorum.Peers(votes, threshold, humanOnDisagreement) == CONTINUE
    ensures RunFrom(w, actions) == Some(end)
    ensures end.store == PaidStore(AdmittedStore(w.store, req), req.agent, matched)
    ensures end.flights == w.flights
    ensures
      var v := w.nextEval;
      var rows, active := RowsOf(w.store, req.agent), ActiveFor(w.store, req.agent, now);
      end.log == w.log + GrantsOf(v, req) + [Assess(v, CONTINUE), PeersAgree(v)] + [Resolve(v, req, rows, active, matched)]
                 + Payment(v, req.agent, matched) + [Execute(v, req, matched), Decide(v, if ok then CONTINUE else HUMAN)]
  {
    var v := w.nextEval;
    var a1, w1 := AdmissionRuns(w, g, req, limit, cap);
    SameAuthority(w.store, req, now);
    assert matched in PermissionsOf(RowsOf(w.store, req.agent));
    var a2, w2 := EvaluationRuns(w, a1, w1, g, Flight(v, req, Counted), now, live, matched, votes, threshold, humanOnDisagreement);
    actions, end := PaymentRuns(w, a2, w2, g, Flight(v, req, Resolved(matched)), matched, ok);
    assert end.flights == w.flights;
  }

  lemma SameAuthority(st: Store, req: Request, now: Moment)
    ensures RowsOf(AdmittedStore(st, req), req.agent) == RowsOf(st, req.agent)
    ensures ActiveFor(AdmittedStore(st, req), req.agent, now) == ActiveFor(st, req.agent, now)
  {}

  lemma AdmissionRuns(w: World, g: GovId, req: Request, limit: int, cap: Option<nat>)
    returns (actions: seq<Action>, end: World)
    requires g !in w.flights && Admissible(w.store, req, limit, cap)
    ensures RunFrom(w, actions) == Some(end)
    ensures end == World(AdmittedStore(w.store, req), w.flights[g := Flight(w.nextEval, req, Counted)],
                         w.log + GrantsOf(w.nextEval, req), w.nextEval + 1)
  {
    var a1, w1 := ClaimsRun(w, [], w, g, req);
    actions, end := CountsRun(w, a1, w1, g, Flight(w.nextEval, req, ClaimsHeld), limit, cap);
    assert end.flights == w.flights[g := Flight(w.nextEval, req, Counted)];
  }

  lemma EvaluationRuns(w0: World, before: seq<Action>, w: World, g: GovId, f: Flight, now: Moment, live: Permission, matched: Permission,
                       votes: Option<seq<Quorum.Vote>>, threshold: real, humanOnDisagreement: bool)
    returns (actions: seq<Action>, end: World)
    requires RunFrom(w0, before) == Some(w) && At(w, g, Counted) && f == w.flights[g]
    requires
      var rows := RowsOf(w.store, f.req.agent);
      && Match(PermissionsOf(rows), f.req.required) == Some(live) && CanSpend(rows, KeyOfPermission(live))
      && Resolution(rows, ActiveFor(w.store, f.req.agent, now), f.req.required) == Some(matched)
    requires Quorum.Peers(votes, threshold, humanOnDisagreement) == CONTINUE
    ensures RunFrom(w0, actions) == Some(end)
    ensures
      var rows, active := RowsOf(w.store, f.req.agent), ActiveFor(w.store, f.req.agent, now);
      end == World(w.store, w.flights[g := f.(stage := Resolved(matched))],
                   w.log + [Assess(f.eval, CONTINUE), PeersAgree(f.eval)] + [Resolve(f.eval, f.req, rows, active, matched)],
                   w.nextEval)
  {
    var a1, w1 := ReadingsRun(w0, before, w, g, f, now, live, matched);
    var a2, w2 := AgreementRuns(w0, a1, w1, g, w1.flights[g], votes, threshold, humanOnDisagreement);
    actions, end := ResolutionRuns(w0, a2, w2, g, w2.flights[g], now, matched);
    assert end.flights == w.flights[g := f.(stage := Resolved(matched))];
  }

  lemma ClaimsTogether(w: World, w3: World, g: GovId, req: Request)
    requires g !in w.flights
    requires
      var f := Flight(w.nextEval, req, Admitted);
      var c, d := NonceClaim("default", req.agent, req.nonce), ProposalClaim("default", req.proposalId);
      w3 == World(
        w.store.(claims := w.store.claims + (if req.nonce != "" then {c} else {}) + (if req.dedupe then {d} else {})),
        w.flights[g := f][g := f.(stage := NonceClaimed)][g := f.(stage := ClaimsHeld)],
        w.log + (if req.nonce != "" then [Grant(f.eval, c)] else []) + (if req.dedupe then [Grant(f.eval, d)] else []),
        w.nextEval + 1)
    ensures w3 == World(w.store.(claims := w.store.claims + ClaimsOf(req)), w.flights[g := Flight(w.nextEval, req, ClaimsHeld)],
                        w.log + GrantsOf(w.nextEval, req), w.nextEval + 1)
  {}
}
