/** When an execution was authorised, and what a restriction that stays imposed stops on every governor. */
module FleetRestrictions {
  import opened Prelude
  import opened Permissions
  import opened Fleet
  import opened FleetStages
  import Restrictions
  import FleetSafety

  // ---- the re-read behind an execution ----

  predicate Of(w: World, g: GovId, v: EvalId, req: Request) {
    g in w.flights && w.flights[g].eval == v && w.flights[g].req == req
  }

  /** At step `s` governor `g` re-read the rows for evaluation `v`, and they were `base`. */
  predicate RowsReadAt(states: seq<World>, actions: seq<Action>, s: nat, g: GovId, v: EvalId, req: Request, base: Rows)
    requires |states| == |actions| + 1
  {
    s < |actions| && actions[s] == ReReadBase(g) && Of(states[s], g, v, req) && base == RowsOf(states[s].store, req.agent)
  }

  /** What governor `g` found active when it re-read the restrictions at step `t`, by its own step count and clock. */
  function ActiveAt(states: seq<World>, actions: seq<Action>, t: nat, agent: AgentId): set<Permission>
    requires |states| == |actions| + 1 && t < |actions| && actions[t].ReReadRestrictions?
  {
    ActiveFor(states[t].store, agent, actions[t].now)
  }

  /**
   Governor `g` re-read the rows at step `s` and the restrictions at step `t`,
   and of what those rows grant outside those restrictions `matched` governs
   the request.
   */
  ghost predicate AuthorisedAt(states: seq<World>, actions: seq<Action>, s: nat, t: nat, g: GovId, v: EvalId, req: Request, matched: Permission)
    requires |states| == |actions| + 1
  {
    && s < t < |actions|
    && RowsReadAt(states, actions, s, g, v, req, RowsOf(states[s].store, req.agent))
    && actions[t].ReReadRestrictions? && actions[t].g == g && Of(states[t], g, v, req)
    && Resolution(RowsOf(states[s].store, req.agent), ActiveAt(states, actions, t, req.agent), req.required) == Some(matched)
  }

  ghost predicate RowsRead(states: seq<World>, actions: seq<Action>, n: nat, g: GovId, v: EvalId, req: Request, base: Rows)
    requires |states| == |actions| + 1
  {
    exists s :: 0 <= s < n && RowsReadAt(states, actions, s, g, v, req, base)
  }

  ghost predicate Authorised(states: seq<World>, actions: seq<Action>, n: nat, v: EvalId, req: Request, matched: Permission)
    requires |states| == |actions| + 1
  {
    exists s, t, g :: 0 <= s < t < n && AuthorisedAt(states, actions, s, t, g, v, req, matched)
  }

  ghost predicate FlightBacked(states: seq<World>, actions: seq<Action>, n: nat, g: GovId, f: Flight)
    requires |states| == |actions| + 1
  {
    match f.stage
    case BaseReRead(base) => RowsRead(states, actions, n, g, f.eval, f.req, base)
    case Resolved(matched) => Authorised(states, actions, n, f.eval, f.req, matched)
    case Paid(matched) => Authorised(states, actions, n, f.eval, f.req, matched)
    case _ => true
  }

  /** What `w` holds in flight and in its log rests on re-reads made before step `n`. */
  ghost predicate Backed(states: seq<World>, actions: seq<Action>, n: nat, w: World)
    requires |states| == |actions| + 1
  {
    && (forall g :: g in w.flights ==> FlightBacked(states, actions, n, g, w.flights[g]))
    && (forall e :: e in w.log && e.Execute? ==> Authorised(states, actions, n, e.eval, e.req, e.matched))
  }

  lemma LaterStillBacked(states: seq<World>, actions: seq<Action>, n: nat, w: World)
    requires |states| == |actions| + 1 && Backed(states, actions, n, w)
    ensures Backed(states, actions, n + 1, w)
  {
    forall g | g in w.flights ensures FlightBacked(states, actions, n + 1, g, w.flights[g]) {
      assert FlightBacked(states, actions, n, g, w.flights[g]);
    }
    forall e | e in w.log && e.Execute? ensures Authorised(states, actions, n + 1, e.eval, e.req, e.matched) {
      assert Authorised(states, actions, n, e.eval, e.req, e.matched);
    }
  }

  lemma AtAgreed(w: World, a: Action)
    requires Enabled(w, a) && OnFlight(a) && w.flights[a.g].stage.Agreed? && a.g in Step(w, a).flights
    ensures a == ReReadBase(a.g)
    ensures Step(w, a).flights[a.g].stage == BaseReRead(RowsOf(w.store, w.flights[a.g].req.agent))
  {}

  lemma AtBaseReRead(w: World, a: Action)
    requires Enabled(w, a) && OnFlight(a) && w.flights[a.g].stage.BaseReRead? && a.g in Step(w, a).flights
    ensures a.ReReadRestrictions?
    ensures
      var f := w.flights[a.g];
      var m := Resolution(f.stage.base, ActiveFor(w.store, f.req.agent, a.now), f.req.required);
      m.Some? && Step(w, a).flights[a.g].stage == Resolved(m.value)
  {}

  lemma RowsReadBacks(states: seq<World>, actions: seq<Action>, n: nat, f: Flight)
    requires |states| == |actions| + 1 && n < |actions|
    requires Enabled(states[n], actions[n]) && OnFlight(actions[n]) && actions[n].g in Step(states[n], actions[n]).flights
    requires f == states[n].flights[actions[n].g] && f.stage.Agreed?
    ensures
      var base := RowsOf(states[n].store, f.req.agent);
      && Step(states[n], actions[n]).flights[actions[n].g].stage == BaseReRead(base)
      && RowsRead(states, actions, n + 1, actions[n].g, f.eval, f.req, base)
  {
    AtAgreed(states[n], actions[n]);
    assert RowsReadAt(states, actions, n, actions[n].g, f.eval, f.req, RowsOf(states[n].store, f.req.agent));
  }

  lemma RestrictionsReadBack(states: seq<World>, actions: seq<Action>, n: nat, f: Flight, matched: Permission)
    requires |states| == |actions| + 1 && n < |actions|
    requires Enabled(states[n], actions[n]) && OnFlight(actions[n]) && actions[n].g in Step(states[n], actions[n]).flights
    requires f == states[n].flights[actions[n].g] && f.stage.BaseReRead?
    requires RowsRead(states, actions, n, actions[n].g, f.eval, f.req, f.stage.base)
    requires Step(states[n], actions[n]).flights[actions[n].g].stage == Resolved(matched)
    ensures Authorised(states, actions, n + 1, f.eval, f.req, matched)
  {
    AtBaseReRead(states[n], actions[n]);
    var s :| 0 <= s < n && RowsReadAt(states, actions, s, actions[n].g, f.eval, f.req, f.stage.base);
    assert AuthorisedAt(states, actions, s, n, actions[n].g, f.eval, f.req, matched);
  }

  /** The new stage of the flight that moves at step `n` is backed. */
  lemma MovedBacked(states: seq<World>, actions: seq<Action>, n: nat, f: Flight, after: Flight)
    requires |states| == |actions| + 1 && n < |actions|
    requires Enabled(states[n], actions[n]) && OnFlight(actions[n]) && states[n + 1] == Step(states[n], actions[n])
    requires actions[n].g in states[n + 1].flights
    requires f == states[n].flights[actions[n].g] && after == states[n + 1].flights[actions[n].g]
    requires FlightBacked(states, actions, n, actions[n].g, f)
    requires after.eval == f.eval && after.req == f.req && Follows(f.stage, after.stage)
    ensures FlightBacked(states, actions, n + 1, actions[n].g, after)
  {
    match after.stage
    case BaseReRead(_) => RowsReadBacks(states, actions, n, f);
    case Resolved(matched) => RestrictionsReadBack(states, actions, n, f, matched);
    case Paid(matched) => assert Authorised(states, actions, n, f.eval, f.req, matched);
    case _ =>
  }

  lemma FlightStepBacked(states: seq<World>, actions: seq<Action>, n: nat)
    requires |states| == |actions| + 1 && n < |actions|
    requires Enabled(states[n], actions[n]) && OnFlight(actions[n]) && states[n + 1] == Step(states[n], actions[n])
    requires Backed(states, actions, n, states[n])
    ensures Backed(states, actions, n + 1, states[n + 1])
  {
    var g, w, w' := actions[n].g, states[n], states[n + 1];
    StagesInOrder(w, actions[n]);
    LaterStillBacked(states, actions, n, w);
    if g in w'.flights {
      MovedBacked(states, actions, n, w.flights[g], w'.flights[g]);
    }
    MovedFlightBacked(states, actions, n + 1, w, w', g);
  }

  /** Whatever else moves is backed as before, and only what a paid flight rests on is executed. */
  lemma MovedFlightBacked(states: seq<World>, actions: seq<Action>, n: nat, w: World, w': World, g: GovId)
    requires |states| == |actions| + 1 && MovesFlight(w, w', g) && Backed(states, actions, n, w)
    requires g in w'.flights ==> FlightBacked(states, actions, n, g, w'.flights[g])
    ensures Backed(states, actions, n, w')
  {
    assert FlightBacked(states, actions, n, g, w.flights[g]);
  }

  lemma OutsideStepBacked(states: seq<World>, actions: seq<Action>, n: nat)
    requires |states| == |actions| + 1 && n < |actions|
    requires Enabled(states[n], actions[n]) && !OnFlight(actions[n]) && states[n + 1] == Step(states[n], actions[n])
    requires Backed(states, actions, n, states[n])
    ensures Backed(states, actions, n + 1, states[n + 1])
  {
    var w, w' := states[n], states[n + 1];
    LaterStillBacked(states, actions, n, w);
    OutsideExecutesNothing(w, actions[n]);
    forall g | g in w'.flights ensures FlightBacked(states, actions, n + 1, g, w'.flights[g]) {
      if !w'.flights[g].stage.Admitted? {
        OutsideMovesNone(w, actions[n], g);
      }
    }
  }

  lemma {:induction false} RunBacked(states: seq<World>, actions: seq<Action>, n: nat)
    requires IsRun(states, actions) && n <= |actions|
    ensures Backed(states, actions, n, states[n])
  {
    if n > 0 {
      RunBacked(states, actions, n - 1);
      if OnFlight(actions[n - 1]) {
        FlightStepBacked(states, actions, n - 1);
      } else {
        OutsideStepBacked(states, actions, n - 1);
      }
    }
  }

  /**
   In every interleaving, an execution rests on two re-reads of its own: of the
   rows at step `s` and of the restrictions at a later step `t`. The executed
   permission governs the request among those the rows of step `s` held and no
   restriction active at step `t` touched.
   */
  lemma ExecutionAuthorisedFreshly(states: seq<World>, actions: seq<Action>, e: Event) returns (s: nat, t: nat, g: GovId)
    requires IsRun(states, actions) && e.Execute? && e in states[|actions|].log
    ensures AuthorisedAt(states, actions, s, t, g, e.eval, e.req, e.matched)
    ensures e.matched in PermissionsOf(RowsOf(states[s].store, e.req.agent))
    ensures Covers(e.matched, e.req.required)
    ensures forall a :: a in ActiveAt(states, actions, t, e.req.agent) ==> !Covers(e.matched, a)
  {
    RunBacked(states, actions, |actions|);
    assert Authorised(states, actions, |actions|, e.eval, e.req, e.matched);
    s, t, g :| 0 <= s < t < |actions| && AuthorisedAt(states, actions, s, t, g, e.eval, e.req, e.matched);
  }

  // ---- a restriction that stays imposed ----

  /** No one clears `r` or marks it expired. */
  predicate StaysImposed(actions: seq<Action>, from: nat, agent: AgentId, r: Restriction) {
    forall i :: from <= i < |actions| ==> !Removes(actions[i], agent, r)
  }

  predicate Removes(a: Action, agent: AgentId, r: Restriction) {
    (a.Lift? || a.Expire?) && a.agent == agent && a.r == r
  }

  lemma StepKeepsRestriction(w: World, a: Action, agent: AgentId, r: Restriction)
    requires Enabled(w, a) && !Removes(a, agent, r) && r in RestrictionsOf(w.store, agent)
    ensures r in RestrictionsOf(Step(w, a).store, agent)
  {}

  lemma RestrictionPersists(states: seq<World>, actions: seq<Action>, k: nat, n: nat, agent: AgentId, r: Restriction)
    requires IsRun(states, actions) && k <= n <= |actions|
    requires r in RestrictionsOf(states[k].store, agent) && StaysImposed(actions, k, agent, r)
    ensures r in RestrictionsOf(states[n].store, agent)
  {
    for i := k to n
      invariant r in RestrictionsOf(states[i].store, agent)
    {
      assert !Removes(actions[i], agent, r);
      StepKeepsRestriction(states[i], actions[i], agent, r);
    }
  }

  /**
   Once a restriction is imposed and no one clears it or marks it expired, no
   governor executes a request of that agent that covers it, except in an
   evaluation that had already re-read the restrictions, or by a governor whose
   own moment was past the expiry.
   */
  lemma RestrictionStopsEveryGovernor(states: seq<World>, actions: seq<Action>, k: nat, r: Restriction, e: Event)
    returns (s: nat, t: nat, g: GovId)
    requires IsRun(states, actions) && k <= |actions| && e.Execute? && e in states[|actions|].log
    requires r in RestrictionsOf(states[k].store, e.req.agent) && StaysImposed(actions, k, e.req.agent, r)
    requires Covers(e.req.required, r.permission)
    ensures AuthorisedAt(states, actions, s, t, g, e.eval, e.req, e.matched)
    ensures t < k || !Restrictions.IsLive(r.expiry, actions[t].now)
  {
    s, t, g := ExecutionAuthorisedFreshly(states, actions, e);
    if k <= t && Restrictions.IsLive(r.expiry, actions[t].now) {
      RestrictionPersists(states, actions, k, t, e.req.agent, r);
      assert r.permission in ActiveAt(states, actions, t, e.req.agent);
      CoversTransitive(e.matched, e.req.required, r.permission);
    }
  }

  /** One that only a human ends stops every governor, whatever its clock or step count, until someone clears it. */
  lemma HumanRestrictionHoldsUntilCleared(states: seq<World>, actions: seq<Action>, k: nat, r: Restriction, e: Event)
    returns (s: nat, t: nat, g: GovId)
    requires IsRun(states, actions) && k <= |actions| && e.Execute? && e in states[|actions|].log
    requires r in RestrictionsOf(states[k].store, e.req.agent) && r.expiry == Restrictions.Human
    requires forall i :: k <= i < |actions| ==> actions[i] != Lift(e.req.agent, r)
    requires Covers(e.req.required, r.permission)
    ensures t < k && AuthorisedAt(states, actions, s, t, g, e.eval, e.req, e.matched)
  {
    forall i | k <= i < |actions| ensures !Removes(actions[i], e.req.agent, r) {
      assert Enabled(states[i], actions[i]);
    }
    s, t, g := RestrictionStopsEveryGovernor(states, actions, k, r, e);
  }

  /**
   Once an agent has no row that covers a request and no one publishes rows for
   it, no governor executes that request, except an evaluation that had already
   re-read the rows. Restarts under any envelope make no difference.
   */
  lemma WithdrawnAuthorityStopsEveryGovernor(states: seq<World>, actions: seq<Action>, k: nat, e: Event)
    returns (s: nat, t: nat, g: GovId)
    requires IsRun(states, actions) && k <= |actions| && e.Execute? && e in states[|actions|].log
    requires e.req.agent in states[k].store.initialized
    requires forall q :: q in PermissionsOf(RowsOf(states[k].store, e.req.agent)) ==> !Covers(q, e.req.required)
    requires forall i :: k <= i < |actions| ==> !actions[i].Replace? || actions[i].agent != e.req.agent
    ensures s < k && AuthorisedAt(states, actions, s, t, g, e.eval, e.req, e.matched)
  {
    s, t, g := ExecutionAuthorisedFreshly(states, actions, e);
    if k <= s {
      var later, steps := states[k..s + 1], actions[k..s];
      forall i | 0 <= i < |steps| ensures Enabled(later[i], steps[i]) && later[i + 1] == Step(later[i], steps[i]) {
        assert later[i] == states[k + i] && later[i + 1] == states[k + i + 1] && steps[i] == actions[k + i];
      }
      FleetSafety.RestartsRenewNothing(later, steps, e.req.agent);
    }
  }
}
