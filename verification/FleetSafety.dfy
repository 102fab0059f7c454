/** What every interleaving of governors guarantees about what is executed. */
module FleetSafety {
  import opened Prelude
  import opened Permissions
  import opened Decisions
  import opened Replay
  import opened Fleet

  // ---- the log of a safe run ----

  ghost predicate Unpaid(log: seq<Event>, v: EvalId) {
    forall e :: e in log && e.Consume? ==> e.eval != v
  }

  /** Evaluation `v` has neither executed nor decided. */
  ghost predicate Open(log: seq<Event>, v: EvalId) {
    forall e :: e in log && (e.Execute? || e.Decide?) ==> e.eval != v
  }

  ghost predicate NeverExecuted(log: seq<Event>, v: EvalId) {
    forall e :: e in log && e.Execute? ==> e.eval != v
  }

  ghost predicate AssessedAtMost(log: seq<Event>, v: EvalId, strictness: int) {
    forall e :: e in log && e.Assess? && e.eval == v ==> Strictness(e.d) <= strictness
  }

  ghost predicate Undecided(log: seq<Event>, v: EvalId) {
    forall e :: e in log && e.Decide? ==> e.eval != v
  }

  ghost predicate Ungranted(log: seq<Event>, c: Claim) {
    forall e :: e in log && e.Grant? ==> e.claim != c
  }

  /** A unit was consumed by evaluation `v` from the row of `matched`. */
  ghost predicate PaidFor(log: seq<Event>, v: EvalId, agent: AgentId, matched: Permission) {
    exists metered :: Consume(v, agent, KeyOfPermission(matched), metered) in log
  }

  ghost predicate ClaimsGranted(log: seq<Event>, v: EvalId, req: Request) {
    && (req.nonce != "" ==> Grant(v, NonceClaimOf(req)) in log)
    && (req.dedupe ==> Grant(v, ProposalClaimOf(req)) in log)
  }

  /** The re-read found `matched` to govern the request of `v` in the authority left by the restrictions then active. */
  ghost predicate ResolvedTo(log: seq<Event>, v: EvalId, req: Request, matched: Permission) {
    exists base, active :: Resolve(v, req, base, active, matched) in log
  }

  /** Everything that has to precede the execution recorded by `e`. */
  ghost predicate Justified(log: seq<Event>, e: Event)
    requires e.Execute?
  {
    && Assess(e.eval, CONTINUE) in log
    && PeersAgree(e.eval) in log
    && ClaimsGranted(log, e.eval, e.req)
    && Covers(e.matched, e.req.required)
    && ResolvedTo(log, e.eval, e.req, e.matched)
    && (if e.matched.maxBudget.Some? then PaidFor(log, e.eval, e.req.agent, e.matched) else Unpaid(log, e.eval))
  }

  /** When event `e` may follow `log`. */
  ghost predicate MayFollow(log: seq<Event>, e: Event) {
    match e
    case Publish(_) => true
    case Grant(_, c) => Ungranted(log, c)
    case Assess(v, _) => Undecided(log, v) && AssessedAtMost(log, v, -1)
    case PeersAgree(v) => Assess(v, CONTINUE) in log
    case Resolve(v, req, base, active, matched) =>
      PeersAgree(v) in log && Resolution(base, active, req.required) == Some(matched)
    case Consume(v, _, _, _) => Unpaid(log, v) && NeverExecuted(log, v)
    case Execute(v, _, _) => NeverExecuted(log, v) && Justified(log, e)
    case Decide(v, d) => AssessedAtMost(log, v, Strictness(d))
  }

  ghost predicate Orderly(log: seq<Event>) {
    forall i :: 0 <= i < |log| ==> MayFollow(log[..i], log[i])
  }

  lemma OrderlySnoc(log: seq<Event>, e: Event)
    requires Orderly(log) && MayFollow(log, e)
    ensures Orderly(log + [e])
  {
    var all := log + [e];
    forall i | 0 <= i < |all| ensures MayFollow(all[..i], all[i]) {
      if i < |log| {
        assert all[..i] == log[..i] && all[i] == log[i];
      } else {
        assert all[..i] == log;
      }
    }
  }

  // ---- flights ----

  predicate PastNonce(s: Stage) {
    !s.Admitted?
  }

  predicate PastClaims(s: Stage) {
    !s.Admitted? && !s.NonceClaimed?
  }

  predicate PastPeers(s: Stage) {
    s.Agreed? || s.BaseReRead? || s.Resolved? || s.Paid?
  }

  /** The strictest assessment an evaluation at stage `s` can have had; -1 before the assessment. */
  function Assessable(s: Stage): int {
    match s
    case Assessed(d) => Strictness(d)
    case Restricting => Strictness(RESTRICT)
    case Agreed => 0
    case BaseReRead(_) => 0
    case Resolved(_) => 0
    case Paid(_) => 0
    case _ => -1
  }

  predicate PastResolution(s: Stage) {
    s.Resolved? || s.Paid?
  }

  /** A flight in which the peers are still to be asked, or were, was assessed CONTINUE. */
  predicate PastContinue(s: Stage) {
    s == Assessed(CONTINUE) || PastPeers(s)
  }

  ghost predicate FlightOk(log: seq<Event>, f: Flight) {
    && Open(log, f.eval)
    && AssessedAtMost(log, f.eval, Assessable(f.stage))
    && (PastNonce(f.stage) && f.req.nonce != "" ==> Grant(f.eval, NonceClaimOf(f.req)) in log)
    && (PastClaims(f.stage) && f.req.dedupe ==> Grant(f.eval, ProposalClaimOf(f.req)) in log)
    && (PastContinue(f.stage) ==> Assess(f.eval, CONTINUE) in log)
    && (PastPeers(f.stage) ==> PeersAgree(f.eval) in log)
    && (PastResolution(f.stage) ==>
          && Covers(f.stage.matched, f.req.required)
          && ResolvedTo(log, f.eval, f.req, f.stage.matched))
    && (if f.stage.Paid? && f.stage.matched.maxBudget.Some? then PaidFor(log, f.eval, f.req.agent, f.stage.matched)
        else Unpaid(log, f.eval))
  }

  predicate Concerns(e: Event, v: EvalId) {
    !e.Publish? && e.eval == v
  }

  /** Events of other evaluations disturb no flight. */
  lemma FlightOkUnderOthers(log: seq<Event>, e: Event, f: Flight)
    requires FlightOk(log, f) && !Concerns(e, f.eval)
    ensures FlightOk(log + [e], f)
  {}

  ghost predicate FlightsOk(w: World) {
    forall g :: g in w.flights ==> w.flights[g].eval < w.nextEval && FlightOk(w.log, w.flights[g])
  }

  /** No two governors run the same evaluation. */
  ghost predicate Apart(w: World) {
    forall g, h :: g in w.flights && h in w.flights && w.flights[g].eval == w.flights[h].eval ==> g == h
  }

  ghost predicate LogOk(w: World) {
    && Orderly(w.log)
    && (forall e :: e in w.log && !e.Publish? ==> e.eval < w.nextEval)
    && (forall e :: e in w.log && e.Grant? ==> e.claim in w.store.claims)
  }

  ghost predicate Safe(w: World) {
    LogOk(w) && FlightsOk(w) && Apart(w)
  }

  // ---- the three shapes of a step ----

  /** A flight moves on without an event; the store may change, but loses no claim. */
  lemma MoveSafe(w: World, w': World, g: GovId)
    requires Safe(w) && g in w.flights && g in w'.flights
    requires w'.flights == w.flights[g := w'.flights[g]] && w'.log == w.log && w'.nextEval == w.nextEval
    requires w'.flights[g].eval == w.flights[g].eval && FlightOk(w.log, w'.flights[g])
    requires w.store.claims <= w'.store.claims
    ensures Safe(w')
  {}

  /** A flight that disappears, by a crash or at its end, leaves everything else as it was. */
  lemma GoneSafe(w: World, g: GovId)
    requires Safe(w)
    ensures Safe(w.(flights := w.flights - {g}))
  {}

  /** An event that concerns no flight. */
  lemma LoggedSafe(w: World, e: Event)
    requires Safe(w) && MayFollow(w.log, e) && (e.Grant? ==> e.claim in w.store.claims)
    requires !e.Publish? ==> e.eval < w.nextEval
    requires forall g :: g in w.flights ==> !Concerns(e, w.flights[g].eval)
    ensures Safe(Logged(w, e))
  {
    OrderlySnoc(w.log, e);
    forall g | g in w.flights ensures FlightOk(w.log + [e], w.flights[g]) {
      FlightOkUnderOthers(w.log, e, w.flights[g]);
    }
  }

  lemma StoreSafe(w: World, store: Store)
    requires Safe(w) && w.store.claims <= store.claims
    ensures Safe(w.(store := store))
  {}

  /** An event of evaluation `v` disturbs no flight of another. */
  lemma OthersStayOk(w: World, e: Event, v: EvalId)
    requires Safe(w) && Concerns(e, v)
    ensures forall h :: h in w.flights && w.flights[h].eval != v ==> FlightOk(w.log + [e], w.flights[h])
  {
    forall h | h in w.flights && w.flights[h].eval != v ensures FlightOk(w.log + [e], w.flights[h]) {
      FlightOkUnderOthers(w.log, e, w.flights[h]);
    }
  }

  /** A flight moves on with one event of its own. */
  lemma EventSafe(w: World, w': World, g: GovId, e: Event)
    requires Safe(w) && g in w.flights && g in w'.flights
    requires w'.flights == w.flights[g := w'.flights[g]] && w'.log == w.log + [e] && w'.nextEval == w.nextEval
    requires Concerns(e, w.flights[g].eval) && MayFollow(w.log, e)
    requires w'.flights[g].eval == w.flights[g].eval && FlightOk(w'.log, w'.flights[g])
    requires w.store.claims <= w'.store.claims && (e.Grant? ==> e.claim in w'.store.claims)
    ensures Safe(w')
  {
    LogGrows(w, w', e);
    OthersStayOk(w, e, w.flights[g].eval);
    MovedFlightsOk(w, w', g);
  }

  lemma LogGrows(w: World, w': World, e: Event)
    requires LogOk(w) && w'.log == w.log + [e] && w'.nextEval == w.nextEval && MayFollow(w.log, e)
    requires !e.Publish? ==> e.eval < w.nextEval
    requires w.store.claims <= w'.store.claims && (e.Grant? ==> e.claim in w'.store.claims)
    ensures LogOk(w')
  {
    OrderlySnoc(w.log, e);
  }

  lemma MovedFlightsOk(w: World, w': World, g: GovId)
    requires FlightsOk(w) && Apart(w) && g in w.flights && g in w'.flights
    requires w'.flights == w.flights[g := w'.flights[g]] && w'.nextEval == w.nextEval
    requires w'.flights[g].eval == w.flights[g].eval && FlightOk(w'.log, w'.flights[g])
    requires forall h :: h in w.flights && w.flights[h].eval != w.flights[g].eval ==> FlightOk(w'.log, w.flights[h])
    ensures FlightsOk(w') && Apart(w')
  {
    forall h | h in w'.flights ensures w'.flights[h].eval < w'.nextEval && FlightOk(w'.log, w'.flights[h]) {
      assert h != g ==> w'.flights[h] == w.flights[h] && w.flights[h].eval != w.flights[g].eval;
    }
  }

  /** A flight ends with a decision no laxer than its assessment. */
  lemma FinishedSafe(w: World, store: Store, g: GovId, d: Decision)
    requires Safe(w) && g in w.flights && w.store.claims <= store.claims
    requires Assessable(w.flights[g].stage) <= Strictness(d)
    ensures Safe(Finished(w.(store := store), g, d))
  {
    var v := w.flights[g].eval;
    var gone := w.(store := store).(flights := w.flights - {g});
    StoreSafe(w, store);
    GoneSafe(w.(store := store), g);
    LoggedSafe(gone, Decide(v, d));
    assert Finished(w.(store := store), g, d) == Logged(gone, Decide(v, d));
  }

  lemma PublishingSafe(w: World, agent: AgentId, budgets: map<RowKey, Option<nat>>)
    requires Safe(w)
    ensures Safe(Publishing(w, agent, budgets))
  {
    var after := Publishing(w, agent, budgets);
    StoreSafe(w, after.store);
    LoggedSafe(w.(store := after.store), Publish(agent));
  }

  // ---- the steps ----

  lemma BeginSafe(w: World, a: Action)
    requires a.Begin? && Enabled(w, a) && Safe(w)
    ensures Safe(Step(w, a))
  {}

  /** The claim a flight makes at its stage, and whether it needs one. */
  function NextClaim(f: Flight): Claim {
    if f.stage == Admitted then NonceClaimOf(f.req) else ProposalClaimOf(f.req)
  }

  predicate NeedsClaim(f: Flight) {
    if f.stage == Admitted then f.req.nonce != "" else f.req.dedupe
  }

  lemma UnclaimedFlight(log: seq<Event>, f: Flight, s: Stage)
    requires FlightOk(log, f) && !NeedsClaim(f)
    requires (f.stage == Admitted && s == NonceClaimed) || (f.stage == NonceClaimed && s == ClaimsHeld)
    ensures FlightOk(log, f.(stage := s))
  {}

  lemma ClaimedFlight(log: seq<Event>, f: Flight, s: Stage)
    requires FlightOk(log, f)
    requires (f.stage == Admitted && s == NonceClaimed) || (f.stage == NonceClaimed && s == ClaimsHeld)
    ensures FlightOk(log + [Grant(f.eval, NextClaim(f))], f.(stage := s))
  {
    assert Grant(f.eval, NextClaim(f)) in log + [Grant(f.eval, NextClaim(f))];
  }

  lemma ClaimingSafe(w: World, g: GovId, s: Stage)
    requires Safe(w) && g in w.flights
    requires (At(w, g, Admitted) && s == NonceClaimed) || (At(w, g, NonceClaimed) && s == ClaimsHeld)
    ensures Safe(Claiming(w, g, NeedsClaim(w.flights[g]), NextClaim(w.flights[g]), s))
  {
    var f := w.flights[g];
    var after := Claiming(w, g, NeedsClaim(f), NextClaim(f), s);
    if !NeedsClaim(f) {
      UnclaimedFlight(w.log, f, s);
      MoveSafe(w, after, g);
    } else if NextClaim(f) in w.store.claims {
      DenialSafe(w, g);
    } else {
      ClaimedFlight(w.log, f, s);
      EventSafe(w, after, g, Grant(f.eval, NextClaim(f)));
    }
  }

  lemma CountFleetSafe(w: World, a: Action)
    requires a.CountFleet? && Enabled(w, a) && Safe(w)
    ensures Safe(Step(w, a))
  {
    MoveSafe(w, Step(w, a), a.g);
  }

  lemma CountAgentSafe(w: World, a: Action)
    requires a.CountAgent? && Enabled(w, a) && Safe(w)
    ensures Safe(Step(w, a))
  {
    var store := Bumped(w, AgentScope(w.flights[a.g].req.agent)).store;
    FinishedSafe(w, store, a.g, HUMAN);
    if Step(w, a) != Finished(w.(store := store), a.g, HUMAN) {
      MoveSafe(w, Step(w, a), a.g);
    }
  }

  lemma DenialSafe(w: World, g: GovId)
    requires Safe(w) && g in w.flights
    ensures Safe(Finished(w, g, HUMAN))
  {
    FinishedSafe(w, w.store, g, HUMAN);
    assert w.(store := w.store) == w;
  }

  /** Two stages that rest on the same evidence. */
  predicate SameEvidence(s: Stage, t: Stage) {
    && PastNonce(s) == PastNonce(t) && PastClaims(s) == PastClaims(t) && PastPeers(s) == PastPeers(t)
    && Assessable(s) == Assessable(t)
    && !PastResolution(s) && !PastResolution(t)
    && PastContinue(s) == PastContinue(t)
  }

  lemma StageSafe(w: World, g: GovId, s: Stage)
    requires Safe(w) && g in w.flights && SameEvidence(w.flights[g].stage, s)
    ensures Safe(To(w, g, s))
  {}

  lemma ReadSafe(w: World, a: Action)
    requires a.ReadLive? || a.ReadBase? || a.ReReadBase?
    requires Enabled(w, a) && Safe(w)
    ensures Safe(Step(w, a))
  {
    StageSafe(w, a.g, Step(w, a).flights[a.g].stage);
  }

  lemma CheckSafe(w: World, a: Action)
    requires a.ReadRestrictions? && Enabled(w, a) && Safe(w)
    ensures Safe(Step(w, a))
  {
    DenialSafe(w, a.g);
    StageSafe(w, a.g, Authorised);
  }

  // ---- the evidence a flight gains with an event of its own ----

  lemma AssessedFlight(log: seq<Event>, f: Flight, d: Decision)
    requires FlightOk(log, f) && f.stage == Authorised
    ensures MayFollow(log, Assess(f.eval, d))
    ensures FlightOk(log + [Assess(f.eval, d)], f.(stage := Assessment(d)))
  {
    assert d == CONTINUE ==> Assess(f.eval, d) in log + [Assess(f.eval, d)];
  }

  lemma AgreedFlight(log: seq<Event>, f: Flight)
    requires FlightOk(log, f) && f.stage == Assessed(CONTINUE)
    ensures FlightOk(log + [PeersAgree(f.eval)], f.(stage := Agreed))
  {}

  lemma ResolvedFlight(log: seq<Event>, f: Flight, active: set<Permission>, matched: Permission)
    requires FlightOk(log, f) && f.stage.BaseReRead?
    requires Resolution(f.stage.base, active, f.req.required) == Some(matched)
    ensures MayFollow(log, Resolve(f.eval, f.req, f.stage.base, active, matched))
    ensures FlightOk(log + [Resolve(f.eval, f.req, f.stage.base, active, matched)], f.(stage := Resolved(matched)))
  {
    var e := Resolve(f.eval, f.req, f.stage.base, active, matched);
    assert e in log + [e];
  }

  lemma UnlimitedFlight(log: seq<Event>, f: Flight)
    requires FlightOk(log, f) && f.stage.Resolved? && f.stage.matched.maxBudget.None?
    ensures FlightOk(log, f.(stage := Paid(f.stage.matched)))
  {}

  lemma PaidFlight(log: seq<Event>, f: Flight, metered: bool)
    requires FlightOk(log, f) && f.stage.Resolved? && f.stage.matched.maxBudget.Some?
    ensures
      var e := Consume(f.eval, f.req.agent, KeyOfPermission(f.stage.matched), metered);
      MayFollow(log, e) && FlightOk(log + [e], f.(stage := Paid(f.stage.matched)))
  {
    var e := Consume(f.eval, f.req.agent, KeyOfPermission(f.stage.matched), metered);
    var base, active :| Resolve(f.eval, f.req, base, active, f.stage.matched) in log;
    assert Resolve(f.eval, f.req, base, active, f.stage.matched) in log + [e] && e in log + [e];
  }

  lemma RecheckSafe(w: World, a: Action)
    requires a.ReReadRestrictions? && Enabled(w, a) && Safe(w)
    ensures Safe(Step(w, a))
  {
    var f := w.flights[a.g];
    var active := ActiveFor(w.store, f.req.agent, a.now);
    var m := Resolution(f.stage.base, active, f.req.required);
    if m.None? {
      DenialSafe(w, a.g);
    } else {
      ResolvedFlight(w.log, f, active, m.value);
      EventSafe(w, Step(w, a), a.g, Resolve(f.eval, f.req, f.stage.base, active, m.value));
    }
  }

  lemma AssessSafe(w: World, g: GovId, d: Decision)
    requires Safe(w) && At(w, g, Authorised)
    ensures Safe(Step(w, AssessRisk(g, d)))
  {
    AssessedFlight(w.log, w.flights[g], d);
    EventSafe(w, Step(w, AssessRisk(g, d)), g, Assess(w.flights[g].eval, d));
  }

  lemma AgreementSafe(w: World, g: GovId)
    requires Safe(w) && At(w, g, Assessed(CONTINUE))
    ensures Safe(Logged(To(w, g, Agreed), PeersAgree(w.flights[g].eval)))
  {
    AgreedFlight(w.log, w.flights[g]);
    EventSafe(w, Logged(To(w, g, Agreed), PeersAgree(w.flights[g].eval)), g, PeersAgree(w.flights[g].eval));
  }

  lemma DisagreementSafe(w: World, g: GovId, d: Decision)
    requires Safe(w) && At(w, g, Assessed(CONTINUE)) && d != CONTINUE
    ensures Safe(To(w, g, Assessment(d)))
  {
    MoveSafe(w, To(w, g, Assessment(d)), g);
  }

  lemma VoteSafe(w: World, a: Action)
    requires a.Vote? && Enabled(w, a) && Safe(w)
    ensures Safe(Step(w, a))
  {
    var d := Quorum.Peers(a.votes, a.threshold, a.humanOnDisagreement);
    if d == CONTINUE {
      AgreementSafe(w, a.g);
    } else {
      DisagreementSafe(w, a.g, d);
    }
  }

  lemma UnlimitedSafe(w: World, a: Action)
    requires a.ConsumeBudget? && Enabled(w, a) && Safe(w) && w.flights[a.g].stage.matched.maxBudget.None?
    ensures Safe(Step(w, a))
  {
    UnlimitedFlight(w.log, w.flights[a.g]);
    MoveSafe(w, To(w, a.g, Paid(w.flights[a.g].stage.matched)), a.g);
  }

  lemma PaymentSafe(w: World, a: Action)
    requires a.ConsumeBudget? && Enabled(w, a) && Safe(w) && w.flights[a.g].stage.matched.maxBudget.Some?
    requires CanSpend(RowsOf(w.store, w.flights[a.g].req.agent), KeyOfPermission(w.flights[a.g].stage.matched))
    ensures Safe(Step(w, a))
  {
    var f := w.flights[a.g];
    var k, rows := KeyOfPermission(f.stage.matched), RowsOf(w.store, f.req.agent);
    PaidFlight(w.log, f, rows[k].maxBudget.Some?);
    EventSafe(w, Step(w, a), a.g, Consume(f.eval, f.req.agent, k, rows[k].maxBudget.Some?));
  }

  lemma ConsumeSafe(w: World, a: Action)
    requires a.ConsumeBudget? && Enabled(w, a) && Safe(w)
    ensures Safe(Step(w, a))
  {
    var f := w.flights[a.g];
    if f.stage.matched.maxBudget.None? {
      UnlimitedSafe(w, a);
    } else if CanSpend(RowsOf(w.store, f.req.agent), KeyOfPermission(f.stage.matched)) {
      PaymentSafe(w, a);
    } else {
      DenialSafe(w, a.g);
    }
  }

  /** The boundary is called on a flight that has everything an execution needs. */
  lemma CallSafe(w: World, a: Action)
    requires a.CallBoundary? && Enabled(w, a) && Safe(w)
    ensures Safe(Step(w, a))
  {
    var f := w.flights[a.g];
    var d := if a.wired && !a.ok then HUMAN else CONTINUE;
    var executed := Execute(f.eval, f.req, f.stage.matched);
    if a.wired {
      assert Justified(w.log, executed);
      ExecutedThenDecided(w, a.g, executed, d);
    } else {
      FinishedSafe(w, w.store, a.g, d);
      assert w.(store := w.store) == w;
    }
  }

  lemma ExecutedThenDecided(w: World, g: GovId, executed: Event, d: Decision)
    requires Safe(w) && g in w.flights && executed.Execute? && executed.eval == w.flights[g].eval
    requires Justified(w.log, executed) && Assessable(w.flights[g].stage) <= Strictness(d)
    ensures Safe(Finished(Logged(w, executed), g, d))
  {
    var gone := w.(flights := w.flights - {g});
    GoneSafe(w, g);
    LoggedSafe(gone, executed);
    LoggedSafe(Logged(gone, executed), Decide(executed.eval, d));
    assert Finished(Logged(w, executed), g, d) == Logged(Logged(gone, executed), Decide(executed.eval, d));
  }

  lemma EndSafe(w: World, a: Action)
    requires (a.Settle? || a.ImposeRestriction? || a.Deny? || a.Crash?) && Enabled(w, a) && Safe(w)
    ensures Safe(Step(w, a))
  {
    if a.Settle? {
      FinishedSafe(w, w.store, a.g, w.flights[a.g].stage.d);
      assert w.(store := w.store) == w;
    } else if a.ImposeRestriction? {
      var imposed := Imposing(w, w.flights[a.g].req, a.expiry);
      FinishedSafe(w, imposed.store, a.g, RESTRICT);
      assert w.(store := imposed.store) == imposed;
    } else if a.Deny? {
      DenialSafe(w, a.g);
    }
  }

  lemma StepSafe(w: World, a: Action)
    requires Enabled(w, a) && Safe(w)
    ensures Safe(Step(w, a))
  {
    match a
    case Begin(_, _) => BeginSafe(w, a);
    case ClaimNonce(g) => ClaimingSafe(w, g, NonceClaimed);
    case ClaimProposal(g) => ClaimingSafe(w, g, ClaimsHeld);
    case CountFleet(_, _) => CountFleetSafe(w, a);
    case CountAgent(_, _) => CountAgentSafe(w, a);
    case ReadLive(_) => ReadSafe(w, a);
    case ReadBase(_) => ReadSafe(w, a);
    case ReadRestrictions(_, _) => CheckSafe(w, a);
    case AssessRisk(g, d) => AssessSafe(w, g, d);
    case Vote(_, _, _, _) => VoteSafe(w, a);
    case ReReadBase(_) => ReadSafe(w, a);
    case ReReadRestrictions(_, _) => RecheckSafe(w, a);
    case ConsumeBudget(_) => ConsumeSafe(w, a);
    case CallBoundary(_, _, _) => CallSafe(w, a);
    case Settle(_) => EndSafe(w, a);
    case ImposeRestriction(_, _) => EndSafe(w, a);
    case Deny(_) => EndSafe(w, a);
    case Crash(_) => EndSafe(w, a);
    case Initialize(agent, budgets) => PublishingSafe(w, agent, budgets);
    case Replace(agent, budgets) => PublishingSafe(w, agent, budgets);
    case Expire(_, _, _) =>
    case Lift(_, _) =>
  }

  lemma {:induction false} RunSafe(states: seq<World>, actions: seq<Action>)
    requires IsRun(states, actions)
    ensures Safe(states[|actions|])
    decreases |actions|
  {
    if actions != [] {
      var n := |actions| - 1;
      RunSafe(states[..n + 1], actions[..n]);
      StepSafe(states[n], actions[n]);
    }
  }

  // ---- what follows for executions ----

  /** An evaluation calls the boundary at most once. */
  lemma ExecutesAtMostOnce(log: seq<Event>, i: nat, j: nat)
    requires Orderly(log) && i < j < |log| && log[i].Execute? && log[j].Execute?
    ensures log[i].eval != log[j].eval
  {}

  lemma ConsumesAtMostOnce(log: seq<Event>, i: nat, j: nat)
    requires Orderly(log) && i < j < |log| && log[i].Consume? && log[j].Consume?
    ensures log[i].eval != log[j].eval
  {}

  lemma ConsumesBeforeExecuting(log: seq<Event>, i: nat, j: nat)
    requires Orderly(log) && i < j < |log| && log[i].Execute? && log[j].Consume?
    ensures log[i].eval != log[j].eval
  {}

  /**
   In every interleaving, an execution resolved to a metered permission is
   preceded by exactly one successful consume of its own, on that permission's
   row; one resolved to an unlimited permission has none.
   */
  lemma ExecutionPaidExactlyOnce(states: seq<World>, actions: seq<Action>, i: nat) returns (j: nat)
    requires IsRun(states, actions) && i < |states[|actions|].log| && states[|actions|].log[i].Execute?
    ensures
      var log := states[|actions|].log;
      var e := log[i];
      && (e.matched.maxBudget.Some? ==>
            && j < i && log[j].Consume? && log[j].eval == e.eval
            && log[j].agent == e.req.agent && log[j].key == KeyOfPermission(e.matched)
            && forall k :: 0 <= k < |log| && log[k].Consume? && log[k].eval == e.eval ==> k == j)
      && (e.matched.maxBudget.None? ==> Unpaid(log, e.eval))
      && PassedEveryCheck(log, i)
  {
    RunSafe(states, actions);
    var log := states[|actions|].log;
    ExecutionPassedEveryCheck(log, i);
    j := PaidOnce(log, i);
  }

  lemma PaidOnce(log: seq<Event>, i: nat) returns (j: nat)
    requires Orderly(log) && i < |log| && log[i].Execute?
    ensures
      var e := log[i];
      && (e.matched.maxBudget.Some? ==>
            && j < i && log[j].Consume? && log[j].eval == e.eval
            && log[j].agent == e.req.agent && log[j].key == KeyOfPermission(e.matched)
            && forall k :: 0 <= k < |log| && log[k].Consume? && log[k].eval == e.eval ==> k == j)
      && (e.matched.maxBudget.None? ==> Unpaid(log, e.eval))
  {
    j := 0;
    if log[i].matched.maxBudget.Some? {
      j := PaymentOf(log, i);
      forall k | 0 <= k < |log| && log[k].Consume? && log[k].eval == log[i].eval ensures k == j {
        OnePayment(log, j, k);
      }
    } else {
      UnlimitedUnpaid(log, i);
    }
  }

  lemma PaymentOf(log: seq<Event>, i: nat) returns (j: nat)
    requires Orderly(log) && i < |log| && log[i].Execute? && log[i].matched.maxBudget.Some?
    ensures
      var e := log[i];
      && j < i && log[j].Consume? && log[j].eval == e.eval
      && log[j].agent == e.req.agent && log[j].key == KeyOfPermission(e.matched)
  {
    var e := log[i];
    assert MayFollow(log[..i], e);
    var metered :| Consume(e.eval, e.req.agent, KeyOfPermission(e.matched), metered) in log[..i];
    j :| 0 <= j < i && log[..i][j] == Consume(e.eval, e.req.agent, KeyOfPermission(e.matched), metered);
  }

  lemma OnePayment(log: seq<Event>, j: nat, k: nat)
    requires Orderly(log) && j < |log| && k < |log| && log[j].Consume? && log[k].Consume? && log[j].eval == log[k].eval
    ensures j == k
  {
    if j < k {
      ConsumesAtMostOnce(log, j, k);
    }
    if k < j {
      ConsumesAtMostOnce(log, k, j);
    }
  }

  lemma UnlimitedUnpaid(log: seq<Event>, i: nat)
    requires Orderly(log) && i < |log| && log[i].Execute? && log[i].matched.maxBudget.None?
    ensures Unpaid(log, log[i].eval)
  {
    assert MayFollow(log[..i], log[i]);
    forall c | c in log && c.Consume? ensures c.eval != log[i].eval {
      var k :| 0 <= k < |log| && log[k] == c;
      if k < i {
        assert log[..i][k] == c;
      } else {
        ConsumesBeforeExecuting(log, i, k);
      }
    }
  }

  /**
   The execution at `i` was assessed CONTINUE, and never anything else; the peers
   agreed; its claims were granted; and the executed permission covers the
   request and governs it in the authority its re-read found effective.
   */
  ghost predicate PassedEveryCheck(log: seq<Event>, i: nat)
    requires i < |log| && log[i].Execute?
  {
    var e := log[i];
    && Assess(e.eval, CONTINUE) in log[..i]
    && (forall k :: 0 <= k < |log| && log[k].Assess? && log[k].eval == e.eval ==> log[k].d == CONTINUE)
    && PeersAgree(e.eval) in log[..i]
    && ClaimsGranted(log[..i], e.eval, e.req)
    && Covers(e.matched, e.req.required)
    && exists base, active ::
         && Resolve(e.eval, e.req, base, active, e.matched) in log[..i]
         && IsMatch(Effective(base, active), e.req.required, e.matched)
  }

  lemma ExecutionPassedEveryCheck(log: seq<Event>, i: nat)
    requires Orderly(log) && i < |log| && log[i].Execute?
    ensures PassedEveryCheck(log, i)
  {
    var e := log[i];
    assert MayFollow(log[..i], e);
    var base, active :| Resolve(e.eval, e.req, base, active, e.matched) in log[..i];
    ResolutionGoverns(log, e.eval, e.req, base, active, e.matched);
    forall k | 0 <= k < |log| && log[k].Assess? && log[k].eval == e.eval ensures log[k].d == CONTINUE {
      AssessedOnce(log, k, e.eval);
    }
  }

  lemma ResolutionGoverns(log: seq<Event>, v: EvalId, req: Request, base: Rows, active: set<Permission>, matched: Permission)
    requires Orderly(log) && Resolve(v, req, base, active, matched) in log
    ensures IsMatch(Effective(base, active), req.required, matched)
  {
    var i :| 0 <= i < |log| && log[i] == Resolve(v, req, base, active, matched);
    assert MayFollow(log[..i], log[i]);
  }

  lemma AssessedOnce(log: seq<Event>, k: nat, v: EvalId)
    requires Orderly(log) && k < |log| && log[k].Assess? && log[k].eval == v && Assess(v, CONTINUE) in log
    ensures log[k] == Assess(v, CONTINUE)
  {
    var j :| 0 <= j < |log| && log[j] == Assess(v, CONTINUE);
    assert MayFollow(log[..k], log[k]) && MayFollow(log[..j], log[j]);
  }

  lemma InPrefix(log: seq<Event>, i: nat, j: nat)
    requires i < j <= |log|
    ensures log[i] in log[..j]
  {}

  lemma SameGrantSameEvaluation(log: seq<Event>, u: EvalId, v: EvalId, c: Claim)
    requires Orderly(log) && Grant(u, c) in log && Grant(v, c) in log
    ensures u == v
  {}

  /** Across governors, restarts and policy changes, no nonce of an agent and no deduplicated proposal id executes twice. */
  lemma NoRequestExecutesTwice(states: seq<World>, actions: seq<Action>, i: nat, j: nat)
    requires IsRun(states, actions) && i < j < |states[|actions|].log|
    requires states[|actions|].log[i].Execute? && states[|actions|].log[j].Execute?
    ensures
      var a, b := states[|actions|].log[i].req, states[|actions|].log[j].req;
      && (a.agent == b.agent && a.nonce != "" ==> a.nonce != b.nonce)
      && (a.dedupe && b.dedupe ==> a.proposalId != b.proposalId)
  {
    RunSafe(states, actions);
    var log := states[|actions|].log;
    ExecutesAtMostOnce(log, i, j);
    assert MayFollow(log[..i], log[i]) && MayFollow(log[..j], log[j]);
    var a, b := log[i], log[j];
    if a.req.agent == b.req.agent && a.req.nonce != "" && a.req.nonce == b.req.nonce {
      SameGrantSameEvaluation(log, a.eval, b.eval, NonceClaimOf(a.req));
    }
    if a.req.dedupe && b.req.dedupe && a.req.proposalId == b.req.proposalId {
      SameGrantSameEvaluation(log, a.eval, b.eval, ProposalClaimOf(a.req));
    }
  }

  /** No decision is laxer than the risk assessment that preceded it. */
  lemma DecisionsNeverSoften(states: seq<World>, actions: seq<Action>, i: nat, j: nat)
    requires IsRun(states, actions) && i < |states[|actions|].log| && j < |states[|actions|].log|
    requires states[|actions|].log[i].Assess? && states[|actions|].log[j].Decide?
    requires states[|actions|].log[i].eval == states[|actions|].log[j].eval
    ensures Strictness(states[|actions|].log[i].d) <= Strictness(states[|actions|].log[j].d)
  {
    RunSafe(states, actions);
    var log := states[|actions|].log;
    assert MayFollow(log[..i], log[i]) && MayFollow(log[..j], log[j]);
    if i < j {
      InPrefix(log, i, j);
    }
    if j < i {
      InPrefix(log, j, i);
    }
  }

  // ---- a published budget bounds the executions it pays for ----

  /** The evaluations that paid from a row since its agent's rows were last published. */
  function PayersSince(log: seq<Event>, agent: AgentId, k: RowKey): set<EvalId> {
    if log == [] then {}
    else
      var n := |log| - 1;
      match log[n]
      case Publish(a) => if a == agent then {} else PayersSince(log[..n], agent, k)
      case Consume(v, a, key, metered) =>
        PayersSince(log[..n], agent, k) + (if a == agent && key == k && metered then {v} else {})
      case _ => PayersSince(log[..n], agent, k)
  }

  lemma {:induction false} PayersAreCounted(log: seq<Event>, agent: AgentId, k: RowKey)
    ensures |PayersSince(log, agent, k)| <= SpentSince(log, agent, k)
  {
    if log != [] {
      PayersAreCounted(log[..|log| - 1], agent, k);
    }
  }

  /** The paying evaluations that went on to call the boundary. */
  ghost function PaidExecutions(log: seq<Event>, agent: AgentId, k: RowKey): set<EvalId> {
    set v | v in PayersSince(log, agent, k) && !NeverExecuted(log, v)
  }

  /** However governors race, executions paid from one publication of a row never exceed its budget. */
  lemma PaidExecutionsWithinBudget(states: seq<World>, actions: seq<Action>, agent: AgentId, k: RowKey)
    requires IsRun(states, actions)
    requires agent in states[|actions|].store.rows && k in states[|actions|].store.rows[agent]
    requires states[|actions|].store.rows[agent][k].maxBudget.Some?
    ensures
      var w := states[|actions|];
      |PaidExecutions(w.log, agent, k)| + w.store.rows[agent][k].remaining <= w.store.rows[agent][k].maxBudget.value
  {
    var w := states[|actions|];
    ConsumedPlusRemainingIsPublished(states, actions);
    assert RowBalances(w.log, agent, k, w.store.rows[agent][k]);
    PayersAreCounted(w.log, agent, k);
    SubsetNoLarger(PaidExecutions(w.log, agent, k), PayersSince(w.log, agent, k));
  }

  lemma {:induction false} SubsetNoLarger(a: set<EvalId>, b: set<EvalId>)
    requires a <= b
    ensures |a| <= |b|
    decreases |a|
  {
    if a != {} {
      var x :| x in a;
      SubsetNoLarger(a - {x}, b - {x});
    }
  }

  /** A consume succeeds only on a row that exists with a unit left, and takes exactly that unit. */
  lemma ConsumeTakesOneUnitOfOneRow(w: World, a: Action, agent: AgentId, k: RowKey)
    requires a.ConsumeBudget? && Enabled(w, a) && |Step(w, a).log| > |w.log|
    requires Step(w, a).log[|w.log|].Consume?
    ensures
      var e := Step(w, a).log[|w.log|];
      var before, after := RowsOf(w.store, agent), RowsOf(Step(w, a).store, agent);
      && e.key in RowsOf(w.store, e.agent)
      && after.Keys == before.Keys
      && (k in before ==>
            && after[k].maxBudget == before[k].maxBudget
            && after[k].remaining ==
                 before[k].remaining - (if agent == e.agent && k == e.key && e.metered then 1 else 0)
            && (agent == e.agent && k == e.key && e.metered ==> before[k].remaining >= 1))
  {}

  // ---- restart and policy change ----

  /** Same rows, same ceilings, and no counter larger than before. */
  ghost predicate NotRenewed(before: Rows, after: Rows) {
    && after.Keys == before.Keys
    && forall k :: k in before ==> after[k].maxBudget == before[k].maxBudget && after[k].remaining <= before[k].remaining
  }

  lemma ConsumeRenewsNothing(w: World, a: Action, agent: AgentId)
    requires a.ConsumeBudget? && Enabled(w, a)
    ensures Step(w, a).store.initialized == w.store.initialized
    ensures NotRenewed(RowsOf(w.store, agent), RowsOf(Step(w, a).store, agent))
  {}

  predicate KeepsRows(w: World, w': World) {
    w'.store.initialized == w.store.initialized && w'.store.rows == w.store.rows
  }

  lemma ClaimsAndCountsKeepRows(w: World, a: Action)
    requires Enabled(w, a) && (a.ClaimNonce? || a.ClaimProposal? || a.CountFleet? || a.CountAgent?)
    ensures KeepsRows(w, Step(w, a))
  {}

  lemma ReadsKeepRows(w: World, a: Action)
    requires Enabled(w, a)
    requires a.ReadLive? || a.ReadBase? || a.ReadRestrictions? || a.ReReadBase? || a.ReReadRestrictions?
    ensures KeepsRows(w, Step(w, a))
  {}

  lemma DecisionsKeepRows(w: World, a: Action)
    requires Enabled(w, a)
    requires a.AssessRisk? || a.Vote? || a.CallBoundary? || a.Settle? || a.ImposeRestriction? || a.Deny?
    ensures KeepsRows(w, Step(w, a))
  {}

  lemma StepRenewsNothing(w: World, a: Action, agent: AgentId)
    requires Enabled(w, a) && agent in w.store.initialized
    requires !a.Replace? || a.agent != agent
    ensures agent in Step(w, a).store.initialized
    ensures NotRenewed(RowsOf(w.store, agent), RowsOf(Step(w, a).store, agent))
  {
    if a.ConsumeBudget? {
      ConsumeRenewsNothing(w, a, agent);
    } else if a.ClaimNonce? || a.ClaimProposal? || a.CountFleet? || a.CountAgent? {
      ClaimsAndCountsKeepRows(w, a);
    } else if a.ReadLive? || a.ReadBase? || a.ReadRestrictions? || a.ReReadBase? || a.ReReadRestrictions? {
      ReadsKeepRows(w, a);
    } else if a.AssessRisk? || a.Vote? || a.CallBoundary? || a.Settle? || a.ImposeRestriction? || a.Deny? {
      DecisionsKeepRows(w, a);
    }
  }

  /**
   Between two publications of an agent's authority, no restart under any
   envelope gives it a row, a ceiling or a unit back. An agent without rows stays without.
   */
  lemma {:induction false} RestartsRenewNothing(states: seq<World>, actions: seq<Action>, agent: AgentId)
    requires |states| == |actions| + 1 && agent in states[0].store.initialized
    requires forall i :: 0 <= i < |actions| ==> Enabled(states[i], actions[i]) && states[i + 1] == Step(states[i], actions[i])
    requires forall i :: 0 <= i < |actions| ==> !actions[i].Replace? || actions[i].agent != agent
    ensures agent in states[|actions|].store.initialized
    ensures NotRenewed(RowsOf(states[0].store, agent), RowsOf(states[|actions|].store, agent))
    decreases |actions|
  {
    if actions != [] {
      var n := |actions| - 1;
      RestartsRenewNothing(states[..n + 1], actions[..n], agent);
      StepRenewsNothing(states[n], actions[n], agent);
    }
  }
}
