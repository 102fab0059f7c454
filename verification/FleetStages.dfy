/** The order in which an evaluation of the fleet passes its stages, whatever the other governors do. */
module FleetStages {
  import opened Decisions
  import opened Fleet

  /** A flight at stage `s` may be at stage `t` after one step. */
  predicate Follows(s: Stage, t: Stage) {
    match t
    case Admitted => false
    case NonceClaimed => s.Admitted?
    case ClaimsHeld => s.NonceClaimed?
    case FleetCounted(_) => s.ClaimsHeld?
    case Counted => s == FleetCounted(true)
    case LiveRead(_) => s.Counted?
    case BaseRead(live, _) => s == LiveRead(live)
    case Authorised => s.BaseRead?
    case Assessed(_) => s.Authorised? || s == Assessed(CONTINUE)
    case Restricting => s.Authorised? || s == Assessed(CONTINUE)
    case Agreed => s == Assessed(CONTINUE)
    case BaseReRead(_) => s.Agreed?
    case Resolved(_) => s.BaseReRead?
    case Paid(matched) => s == Resolved(matched)
  }

  /**
   The step moved flight `g` to the next stage or ended it, and touched no
   other. Only a paid flight executes, and counters are charged at two stages only.
   */
  ghost predicate MovesFlight(w: World, w': World, g: GovId) {
    && g in w.flights
    && (forall h :: h in w'.flights && h != g ==> h in w.flights && w'.flights[h] == w.flights[h])
    && (g in w'.flights ==>
          && w'.flights[g].eval == w.flights[g].eval && w'.flights[g].req == w.flights[g].req
          && Follows(w.flights[g].stage, w'.flights[g].stage))
    && (forall e :: e in w'.log && e.Execute? ==>
          || e in w.log
          || (w.flights[g].stage.Paid? && e == Execute(w.flights[g].eval, w.flights[g].req, w.flights[g].stage.matched)))
    && (w.flights[g].stage.ClaimsHeld? || w.flights[g].stage.FleetCounted? || w'.store.counters == w.store.counters)
  }

  lemma EndMoves(w: World, store: Store, g: GovId, d: Decision)
    requires g in w.flights
    requires w.flights[g].stage.FleetCounted? || store.counters == w.store.counters
    ensures MovesFlight(w, Finished(w.(store := store), g, d), g)
  {}

  lemma DenialMoves(w: World, g: GovId)
    requires g in w.flights
    ensures MovesFlight(w, Finished(w, g, HUMAN), g)
  {}

  lemma ClaimMoves(w: World, g: GovId, needed: bool, c: Replay.Claim, s: Stage)
    requires g in w.flights && Follows(w.flights[g].stage, s)
    ensures MovesFlight(w, Claiming(w, g, needed, c, s), g)
  {}

  lemma CountFleetMoves(w: World, a: Action)
    requires a.CountFleet? && Enabled(w, a)
    ensures MovesFlight(w, Step(w, a), a.g)
  {}

  lemma CountAgentMoves(w: World, a: Action)
    requires a.CountAgent? && Enabled(w, a)
    ensures MovesFlight(w, Step(w, a), a.g)
  {}

  lemma ReadLiveMoves(w: World, a: Action)
    requires a.ReadLive? && Enabled(w, a)
    ensures MovesFlight(w, Step(w, a), a.g)
  {}

  lemma ReadBaseMoves(w: World, a: Action)
    requires a.ReadBase? && Enabled(w, a)
    ensures MovesFlight(w, Step(w, a), a.g)
  {}

  lemma ReadRestrictionsMoves(w: World, a: Action)
    requires a.ReadRestrictions? && Enabled(w, a)
    ensures MovesFlight(w, Step(w, a), a.g)
  {
    DenialMoves(w, a.g);
  }

  lemma AssessMoves(w: World, a: Action)
    requires a.AssessRisk? && Enabled(w, a)
    ensures MovesFlight(w, Step(w, a), a.g)
  {}

  lemma VoteMoves(w: World, a: Action)
    requires a.Vote? && Enabled(w, a)
    ensures MovesFlight(w, Step(w, a), a.g)
  {}

  lemma ReReadBaseMoves(w: World, a: Action)
    requires a.ReReadBase? && Enabled(w, a)
    ensures MovesFlight(w, Step(w, a), a.g)
  {}

  lemma ReReadRestrictionsMoves(w: World, a: Action)
    requires a.ReReadRestrictions? && Enabled(w, a)
    ensures MovesFlight(w, Step(w, a), a.g)
  {
    DenialMoves(w, a.g);
  }

  lemma ConsumeMoves(w: World, a: Action)
    requires a.ConsumeBudget? && Enabled(w, a)
    ensures MovesFlight(w, Step(w, a), a.g)
  {
    DenialMoves(w, a.g);
  }

  lemma CallMoves(w: World, a: Action)
    requires a.CallBoundary? && Enabled(w, a)
    ensures MovesFlight(w, Step(w, a), a.g)
  {}

  lemma ImposeMoves(w: World, a: Action)
    requires a.ImposeRestriction? && Enabled(w, a)
    ensures MovesFlight(w, Step(w, a), a.g)
  {
    var imposed := Imposing(w, w.flights[a.g].req, a.expiry);
    EndMoves(w, imposed.store, a.g, RESTRICT);
    assert w.(store := imposed.store) == imposed;
  }

  lemma SettleMoves(w: World, a: Action)
    requires a.Settle? && Enabled(w, a)
    ensures MovesFlight(w, Step(w, a), a.g)
  {
    EndMoves(w, w.store, a.g, w.flights[a.g].stage.d);
  }

  /** The steps of an evaluation under way, as against the start of one and the acts of operators. */
  predicate OnFlight(a: Action) {
    !a.Begin? && !a.Initialize? && !a.Replace? && !a.Expire? && !a.Lift?
  }

  /** Every evaluation passes the stages in order and skips none, in every interleaving. */
  lemma StagesInOrder(w: World, a: Action)
    requires Enabled(w, a) && OnFlight(a)
    ensures MovesFlight(w, Step(w, a), a.g)
  {
    match a
    case ClaimNonce(g) => ClaimMoves(w, g, w.flights[g].req.nonce != "", NonceClaimOf(w.flights[g].req), NonceClaimed);
    case ClaimProposal(g) => ClaimMoves(w, g, w.flights[g].req.dedupe, ProposalClaimOf(w.flights[g].req), ClaimsHeld);
    case CountFleet(_, _) => CountFleetMoves(w, a);
    case CountAgent(_, _) => CountAgentMoves(w, a);
    case ReadLive(_) => ReadLiveMoves(w, a);
    case ReadBase(_) => ReadBaseMoves(w, a);
    case ReadRestrictions(_, _) => ReadRestrictionsMoves(w, a);
    case AssessRisk(_, _) => AssessMoves(w, a);
    case Vote(_, _, _, _) => VoteMoves(w, a);
    case ReReadBase(_) => ReReadBaseMoves(w, a);
    case ReReadRestrictions(_, _) => ReReadRestrictionsMoves(w, a);
    case ConsumeBudget(_) => ConsumeMoves(w, a);
    case CallBoundary(_, _, _) => CallMoves(w, a);
    case Settle(_) => SettleMoves(w, a);
    case ImposeRestriction(_, _) => ImposeMoves(w, a);
    case Deny(g) => DenialMoves(w, g);
    case Crash(_) =>
  }

  /** What happens outside evaluations moves none, executes nothing and charges no counter. */
  lemma OutsideMovesNone(w: World, a: Action, g: GovId)
    requires Enabled(w, a) && !OnFlight(a)
    requires g in Step(w, a).flights && !Step(w, a).flights[g].stage.Admitted?
    ensures g in w.flights && Step(w, a).flights[g] == w.flights[g]
  {}

  lemma OutsideExecutesNothing(w: World, a: Action)
    requires Enabled(w, a) && !OnFlight(a)
    ensures forall e :: e in Step(w, a).log && e.Execute? ==> e in w.log
    ensures Step(w, a).store.counters == w.store.counters
  {}
}
