/** However many governors share a store, its step counters bound what they execute. */
module FleetSteps {
  import opened Prelude
  import opened Fleet
  import opened FleetStages
  import FleetSafety

  /** A durable step counter: the fleet's, or one agent's. */
  datatype Meter = FleetMeter | AgentMeter(agent: AgentId)

  function ScopeOf(m: Meter): string {
    match m
    case FleetMeter => FLEET_SCOPE
    case AgentMeter(agent) => AgentScope(agent)
  }

  predicate Applies(m: Meter, r: Request) {
    m.AgentMeter? ==> r.agent == m.agent
  }

  /** Different meters count in different rows of the table. */
  lemma ScopesDiffer(m: Meter, n: Meter)
    ensures ScopeOf(m) == ScopeOf(n) <==> m == n
  {
    if m.AgentMeter? && n.AgentMeter? {
      assert m.agent == ScopeOf(m)[6..] && n.agent == ScopeOf(n)[6..];
    } else if m != n {
      assert ScopeOf(m)[0] != ScopeOf(n)[0];
    }
  }

  /** The counter was charged for a flight at stage `s`, and was within its limit. */
  predicate Past(m: Meter, s: Stage) {
    !s.Admitted? && !s.NonceClaimed? && !s.ClaimsHeld?
    && (s.FleetCounted? ==> m.FleetMeter? && s.within)
  }

  function Steps(w: World, m: Meter): nat {
    if ScopeOf(m) in w.store.counters then w.store.counters[ScopeOf(m)] else 0
  }

  /** The evaluations that called the boundary. */
  function Executed(log: seq<Event>, m: Meter): set<EvalId> {
    set e | e in log && e.Execute? && Applies(m, e.req) :: e.eval
  }

  function InFlight(w: World, m: Meter): set<EvalId> {
    set g | g in w.flights && Applies(m, w.flights[g].req) && Past(m, w.flights[g].stage) :: w.flights[g].eval
  }

  /** The evaluations holding a step of the counter: those that executed and those that still may. */
  function Holders(w: World, m: Meter): set<EvalId> {
    Executed(w.log, m) + InFlight(w, m)
  }

  predicate Charges(w: World, a: Action, m: Meter) {
    match a
    case CountFleet(_, _) => m.FleetMeter?
    case CountAgent(g, _) => g in w.flights && m == AgentMeter(w.flights[g].req.agent)
    case _ => false
  }

  /** No governor reads the counter against a limit above `most`. */
  predicate LimitAtMost(w: World, a: Action, m: Meter, most: nat) {
    Charges(w, a, m) ==>
      match a
      case CountFleet(_, limit) => limit <= most
      case CountAgent(_, cap) => cap.Some? && cap.value <= most
      case _ => true
  }

  /** A flight that moves on without passing the counter adds no holder. */
  lemma MovingOnAddsNoHolder(w: World, w': World, g: GovId, m: Meter)
    requires MovesFlight(w, w', g)
    requires Applies(m, w.flights[g].req) && g in w'.flights && Past(m, w'.flights[g].stage) ==> Past(m, w.flights[g].stage)
    ensures Holders(w', m) <= Holders(w, m)
  {}

  lemma CountsAddNoHolder(w: World, a: Action, m: Meter)
    requires Enabled(w, a) && (a.CountFleet? || a.CountAgent?) && !Charges(w, a, m)
    ensures Holders(Step(w, a), m) <= Holders(w, m)
    ensures Steps(Step(w, a), m) == Steps(w, m)
  {
    StagesInOrder(w, a);
    MovingOnAddsNoHolder(w, Step(w, a), a.g, m);
    ScopesDiffer(FleetMeter, m);
    ScopesDiffer(AgentMeter(w.flights[a.g].req.agent), m);
  }

  lemma OutsideAddsNoHolder(w: World, a: Action, m: Meter)
    requires Enabled(w, a) && !OnFlight(a)
    ensures Holders(Step(w, a), m) <= Holders(w, m)
    ensures Steps(Step(w, a), m) == Steps(w, m)
  {
    var w' := Step(w, a);
    OutsideExecutesNothing(w, a);
    forall g | g in w'.flights && Past(m, w'.flights[g].stage) ensures g in w.flights && w'.flights[g] == w.flights[g] {
      OutsideMovesNone(w, a, g);
    }
  }

  /** A flight at a counter can only be counted, denied or crash. */
  lemma NotAtACounter(w: World, a: Action)
    requires Enabled(w, a) && OnFlight(a) && !a.CountFleet? && !a.CountAgent?
    ensures w.flights[a.g].stage.ClaimsHeld? || w.flights[a.g].stage.FleetCounted? ==>
              a.g !in Step(w, a).flights && Step(w, a).store.counters == w.store.counters
  {}

  lemma OtherStepsAddNoHolder(w: World, a: Action, m: Meter)
    requires Enabled(w, a) && !Charges(w, a, m)
    ensures Holders(Step(w, a), m) <= Holders(w, m)
    ensures Steps(Step(w, a), m) == Steps(w, m)
  {
    if !OnFlight(a) {
      OutsideAddsNoHolder(w, a, m);
    } else if a.CountFleet? || a.CountAgent? {
      CountsAddNoHolder(w, a, m);
    } else {
      StagesInOrder(w, a);
      NotAtACounter(w, a);
      MovingOnAddsNoHolder(w, Step(w, a), a.g, m);
    }
  }

  /** Charging a counter adds at most one holder, and none once the limit is reached. */
  lemma ChargeAddsOneHolder(w: World, a: Action, m: Meter)
    requires Enabled(w, a) && Charges(w, a, m)
    ensures Steps(Step(w, a), m) == Steps(w, m) + 1
    ensures Holders(Step(w, a), m) <= Holders(w, m) + {w.flights[a.g].eval}
    ensures forall most: nat :: LimitAtMost(w, a, m, most) && Steps(w, m) >= most ==>
                                  Holders(Step(w, a), m) <= Holders(w, m)
  {}

  ghost predicate Bounded(w: World, m: Meter, most: Option<nat>) {
    && |Holders(w, m)| <= Steps(w, m)
    && (most.Some? ==> |Holders(w, m)| <= most.value)
  }

  lemma StepBounded(w: World, a: Action, m: Meter, most: Option<nat>)
    requires Enabled(w, a) && Bounded(w, m, most) && (most.Some? ==> LimitAtMost(w, a, m, most.value))
    ensures Bounded(Step(w, a), m, most)
  {
    if Charges(w, a, m) {
      ChargeAddsOneHolder(w, a, m);
      FleetSafety.SubsetNoLarger(Holders(Step(w, a), m), Holders(w, m) + {w.flights[a.g].eval});
      if most.Some? && Steps(w, m) >= most.value {
        FleetSafety.SubsetNoLarger(Holders(Step(w, a), m), Holders(w, m));
      }
    } else {
      OtherStepsAddNoHolder(w, a, m);
      FleetSafety.SubsetNoLarger(Holders(Step(w, a), m), Holders(w, m));
    }
  }

  lemma {:induction false} RunBounded(states: seq<World>, actions: seq<Action>, m: Meter, most: Option<nat>)
    requires IsRun(states, actions)
    requires most.Some? ==> forall i :: 0 <= i < |actions| ==> LimitAtMost(states[i], actions[i], m, most.value)
    ensures Bounded(states[|actions|], m, most)
    decreases |actions|
  {
    if actions == [] {
      assert Holders(EMPTY, m) == {};
    } else {
      var n := |actions| - 1;
      RunBounded(states[..n + 1], actions[..n], m, most);
      StepBounded(states[n], actions[n], m, most);
    }
  }

  /** How often the boundary was called. */
  function Calls(log: seq<Event>, m: Meter): nat {
    if log == [] then 0
    else
      var e := log[|log| - 1];
      Calls(log[..|log| - 1], m) + (if e.Execute? && Applies(m, e.req) then 1 else 0)
  }

  ghost predicate EachExecutesOnce(log: seq<Event>) {
    forall i, j :: 0 <= i < j < |log| && log[i].Execute? && log[j].Execute? ==> log[i].eval != log[j].eval
  }

  lemma ExecutedSnoc(log: seq<Event>, e: Event, m: Meter)
    ensures Executed(log + [e], m) == Executed(log, m) + (if e.Execute? && Applies(m, e.req) then {e.eval} else {})
  {}

  lemma {:induction false} CallsAreDistinct(log: seq<Event>, m: Meter)
    requires EachExecutesOnce(log)
    ensures Calls(log, m) == |Executed(log, m)|
  {
    if log != [] {
      var e, before := log[|log| - 1], log[..|log| - 1];
      CallsAreDistinct(before, m);
      assert log == before + [e];
      ExecutedSnoc(before, e, m);
    }
  }

  /**
   In every interleaving the boundary is called no more often than the shared
   counter was charged, and no more often than the largest limit any governor
   holds that counter to: for the fleet, and for each agent.
   */
  lemma CallsWithinStepBudget(states: seq<World>, actions: seq<Action>, m: Meter, most: Option<nat>)
    requires IsRun(states, actions)
    requires most.Some? ==> forall i :: 0 <= i < |actions| ==> LimitAtMost(states[i], actions[i], m, most.value)
    ensures Calls(states[|actions|].log, m) <= Steps(states[|actions|], m)
    ensures most.Some? ==> Calls(states[|actions|].log, m) <= most.value
  {
    var w := states[|actions|];
    RunBounded(states, actions, m, most);
    FleetSafety.RunSafe(states, actions);
    forall i, j | 0 <= i < j < |w.log| && w.log[i].Execute? && w.log[j].Execute? ensures w.log[i].eval != w.log[j].eval {
      FleetSafety.ExecutesAtMostOnce(w.log, i, j);
    }
    CallsAreDistinct(w.log, m);
    FleetSafety.SubsetNoLarger(Executed(w.log, m), Holders(w, m));
  }
}
