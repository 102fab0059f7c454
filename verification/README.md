# Chainmail governor: a verified model

Chainmail is a policy governor. Agents submit proposals; the governor answers
CONTINUE, RESTRICT, RECHECK or HUMAN by checking delegated authority, budgets,
active restrictions and replay claims, in memory or in a store that several
governor processes share. This project models that logic in Dafny 4.11 and
proves what the design promises about it. `dafny verify dfyconfig.toml` checks
all of it.

## Reading order

| file | what it holds |
|---|---|
| `Prelude.dfy`, `Decisions.dfy` | option and result types; decisions ordered by strictness; risk signals |
| `Permissions.dfy` | coverage, the total order between candidates, the one permission that governs a request |
| `Authorities.dfy` | the authority algebra on values: containment, spending, reduction, clamping, effective authority |
| `Clamping.dfy` | what a clamp leaves: the meet of offer and ceiling, and when it is the greatest authority within both |
| `AuthorityObject.dfy` | the mutable `Authority` object, each method proved against the algebra |
| `Delegation.dfy` | the fleet of live authorities as a state machine: delegate, merge, revoke, spend, restart; through the store, hops publish from stale reads |
| `Restrictions.dfy` | liveness of restrictions and the lazily pruned in-memory list |
| `Pipeline.dfy` | the gates of one evaluation, the verdict, the new state, and runs of evaluations |
| `Verdicts.dfy` | what an evaluation decides and does, in terms of the readings, thresholds, policy and memory |
| `GovernorRuns.dfy` | runs of that governor that mix evaluations, delegations and revocations |
| `GovernorLives.dfy` | how long identifiers, restrictions and step budgets last, over whole runs |
| `Roles.dfy` | who may delegate to whom, every answer to an offer, and what a success gives |
| `Governor.dfy` | the governor object without a store: `Evaluate`, `RegisterDelegation`, `RevokeDelegation` |
| `Fleet.dfy`, `FleetSafety.dfy` | N governors interleaved step by step over one durable store; conservation and safety over all runs |
| `FleetStages.dfy`, `FleetRestrictions.dfy` | the order of stages; the re-reads behind an execution, and what a standing restriction or a withdrawn authority stops on every governor |
| `FleetProgress.dfy` | exactly when each step over the store denies, and what an evaluation nobody interferes with achieves |
| `FleetSteps.dfy` | the shared step counters bound what any number of governors execute |
| `FleetDelegation.dfy` | delegation through the shared store: racing publications are the durable moves of the delegation machine |
| `AuthorityStore.dfy`, `DurableAuthority.dfy` | the durable authority tables as an object; how durable spending corresponds to the algebra |
| `Replay.dfy`, `Migration.dfy` | replay claims with an LRU table in front, and carrying old claims into the new schema |
| `Chain.dfy`, `HashChain.dfy`, `Ledger.dfy` | hash chains in general, the audit log with many writers, the keyed ledgers and key rotation |
| `RestrictionStore.dfy` | durable restrictions: table, ledger, cross-check, and edits of the table alone |
| `Checkpoint.dfy` | the two-phase rollback checkpoint with threads and crashes |
| `Quorum.dfy` | weighted vote aggregation |
| `Payload.dfy` | the payload bound with its shared counter |

## Conventions of the model

- A hash or a keyed code is a free term over what it was computed from, so it is
  collision-free and never equals the genesis value. `Junk` stands for any other
  text found in its place.
- Sets have no enumeration order. Where several permissions share a counter key,
  the counters that `reduce_to` and `clamp_to_ceiling` leave depend on that
  order, so both are relations (`IsReduced`, `IsClamp`) and every theorem holds
  for all their results.
- The similarity engine, the intent graph, clocks, signatures, schema checks,
  audit writes, vote transports and the boundary are inputs of an evaluation.
- Each store call, and each locked write of the log file, is one atomic step. A
  store that raises, and any gate that fails, is the step `Deny`.

## Where the code and its documentation differ

The model follows the code.

- Containment of authorities is not transitive: `SplitAuthorityIsExceeded` is an
  authority with one unit on a scope that two accepted hops turn into ten.
  `TransitivityExactly` gives the condition on the top authority.
- Clamping caps counters at the ceiling's budget, not at what is left of it, as
  its documentation says. `ClampWithinCeilingExactly` states when the two agree;
  `UsedCeilingIsExceeded` is an input where they do not.
- A durable hop publishes whole budgets, so it can hand over more than the
  delegator had left. `DurableHopWithinRemainingExactly`: it does not, for every
  offer, exactly when the delegator has spent nothing.
- The replay cache key joins agent and nonce with a colon. `TransparentExactly`:
  the cache never changes a decision exactly when no agent id extends another by
  a colon or no governor caches nonces. A request is granted at most once in any
  case.
- Counters of live authority are stored under name and scope joined with a colon,
  durable ones by row. `SpendingAgreesExactly` and `SpendingCorrespondsExactly`
  say when the two still agree; `CollidingKeysDisagree` is an input where they do not.
- Restrictions only ever remove coverage, but removing a permission can leave a
  looser one in charge. `RestrictionGivesBudget`: a restriction on one scope makes
  a used-up request on another scope usable. `RestrictionFreesRequest`: through
  the store a request that would cost a unit becomes free. Neither happens, for
  any request, exactly when no wildcard masks such a permission on its own scope
  (`RestrictionsNeverGiveBudgetExactly`, `RestrictionsNeverFreeExactly`).
- Without a store, the unit is taken from the unrestricted authority, so a
  request may be paid from a permission that a restriction has removed.
  `ChargedGovernsExactly` says when it is not, `RestrictedPermissionIsCharged` is
  an input where it is. The durable path pays from the effective authority.
- The key id is not part of a ledger code, so equal tips mean equal ledgers
  exactly when no two ids share a key (`EqualTipsEqualLedgersExactly`).

## Model

| member | source | states |
|---|---|---|
| `Permissions.MatchUnique` | src/chainmail/core.py:108-134 | at most one permission of a set governs a request, whatever order the set is enumerated in |
| `Permissions.Match` | src/chainmail/core.py:108-143 | a governing permission covers the request and sorts before every other that does; none is returned only when none covers |
| `Permissions.MatchIgnoresRequestBudget` | src/chainmail/core.py:90-93 | the budget a request carries never changes which permission governs it |
| `Permissions.CoverageExactly` | src/chainmail/core.py:90-93 | a wildcard covers every scope of its name, anything else its own scope only, nothing another name |
| `Permissions.GovernorIsMostRestrictive` | src/chainmail/core.py:108-134 | whatever metered permission covers a request, the governing one is metered and has no larger ceiling |
| `Permissions.MatchNarrows` | src/chainmail/core.py:108-134 | a narrower request is governed by a permission at least as restrictive |
| `Authorities.BudgetIsOneUnit` | src/chainmail/core.py:145-209 | `has_budget` holds exactly when consuming one unit would succeed |
| `Authorities.ConsumeShrinks` | src/chainmail/core.py:192-209 | a spend leaves the same permissions, none claiming more than before |
| `Authorities.SpendTakesExactly` | src/chainmail/core.py:192-209 | a spend takes exactly the units asked for from the governing counter and touches no other; a refusal takes nothing |
| `Authorities.UnmeteredSpend` | src/chainmail/core.py:192-209 | an unlimited governor grants everything and keeps no count, no governor grants nothing |
| `Authorities.ReductionKeepsCountersExactly` | src/chainmail/core.py:211-225 | reduction carries every counter across, in every enumeration order, exactly when no unstored key is shared by different ceilings |
| `Authorities.SubsetTransitive` | src/chainmail/core.py:154-189 | containment composes through a coherent top authority |
| `Authorities.MeteredOfferExactly` | src/chainmail/core.py:154-189 | a metered permission is held if and only if its ceiling and its claim fit the governing permission; an inflated counter claims no more than the ceiling |
| `Authorities.UnlimitedOfferExactly` | src/chainmail/core.py:154-189 | an unlimited permission is held if and only if the governing permission is unlimited |
| `Authorities.ContainedCanNoMore` | src/chainmail/core.py:154-189 | whatever a contained authority can do its container can do |
| `Authorities.ContainedPaysNoMore` | src/chainmail/core.py:154-189 | what a contained authority has units to claim for, a coherent container has units for |
| `Authorities.TransitivityExactly` | src/chainmail/core.py:154-189 | containment composes through an authority, for all others, if and only if it is coherent |
| `Authorities.SplitAuthorityIsExceeded` | src/chainmail/core.py:154-189 | a concrete incoherent authority and two accepted containments that do not compose through it |
| `Authorities.NonOverlappingIsCoherent` | src/chainmail/core.py:154-189 | an authority without overlapping permissions is coherent and contained in itself |
| `Authorities.ClampWithinSourceExactly` | src/chainmail/core.py:227-260 | what clamping leaves of any accepted offer stays within the source if and only if the source has no negative counter |
| `Authorities.ClampWithinCeilingExactly` | src/chainmail/core.py:227-260 | what clamping leaves of any offer stays within the ceiling if and only if the ceiling's own counters are full |
| `Authorities.UsedCeilingIsExceeded` | src/chainmail/core.py:227-260 | a concrete offer that a partly used ceiling lets through in full |
| `Authorities.EffectiveIsExactlyUntouched` | src/chainmail/governor.py:585-602 | effective authority is exactly the base permissions that cover no active restriction, counters unchanged |
| `Authorities.EffectiveAntitone` | src/chainmail/governor.py:585-602 | more restrictions leave no further permission and cover no further request |
| `Authorities.RestrictionsOnlyLoosen` | src/chainmail/governor.py:585-602 | under more restrictions a request that is still covered is governed by a permission that sorts no earlier than before |
| `Authorities.AntitoneExactly` | src/chainmail/core.py:108-143 | for any question about the governing permission, restrictions never turn the answer to yes, for all requests, if and only if no wildcard masks a permission on its own scope |
| `Authorities.RestrictionsNeverGiveBudgetExactly` | src/chainmail/governor.py:585-602 | restrictions never give a request budget if and only if no used-up wildcard masks a usable permission |
| `Authorities.RestrictionGivesBudget` | src/chainmail/governor.py:585-602 | a concrete authority whose effective part under a restriction exceeds it |
| `AuthorityObject.Authority.Resolve` | src/chainmail/core.py:108-143 | the search over an unordered set returns the governing permission |
| `AuthorityObject.Authority.HasBudget` | src/chainmail/core.py:145-152 | answers the value-level question about the governing permission |
| `AuthorityObject.Authority.IsSubsetOf` | src/chainmail/core.py:154-189 | the early-exit loop decides containment |
| `AuthorityObject.Authority.ConsumeBudget` | src/chainmail/core.py:192-209 | success, and the whole new object, as the algebra says |
| `AuthorityObject.Authority.ReduceTo` | src/chainmail/core.py:211-225 | the loops produce a reduction and leave the receiver alone |
| `AuthorityObject.Authority.ClampToCeiling` | src/chainmail/core.py:227-260 | the loop produces a clamp and leaves both authorities alone |
| `Clamping.ClampKeepsWhatFits` | src/chainmail/core.py:227-260 | each offered permission the ceiling authorises is kept under its name and scope with the largest budget that fits both, and nothing else is kept |
| `Clamping.MeetIsGreatest` | src/chainmail/core.py:248-252 | a number of units fits the kept budget if and only if it fits both the offer and the ceiling |
| `Clamping.ClampKeepsCounters` | src/chainmail/core.py:254-259 | the kept counter is the smaller of what was left and the new budget, and never negative |
| `Clamping.ClampIsGreatestExactly` | src/chainmail/core.py:227-260 | the clamp of a non-overlapping offer contains everything that both ends contain if and only if the ceiling authorises no offered permission in part only |
| `Clamping.FittingOfferIsUnchanged` | src/chainmail/core.py:227-260 | an offer already within the ceiling comes through as it was, counters included |
| `Clamping.ClampingTwiceIsOnce` | src/chainmail/core.py:227-260 | clamping twice is clamping once |
| `Clamping.ThreeOfFiveArrive` | src/chainmail/core.py:249-258 | three units offered to a ceiling of five arrive as three |
| `Delegation.HopWithinBothEnds` | src/chainmail/governor.py:737-776 | from an envelope without negative counters, every accepted replacing hop of every in-memory run leaves the recipient inside the delegator's effective authority and its own unspent ceiling |
| `Delegation.CountersStayNonNegative` | src/chainmail/core.py:192-260 | no run of hops, merges, spends, revocations and restarts makes a counter negative |
| `Delegation.MergeKeepsClaims` | src/chainmail/governor.py:757-776 | a merge without key collision leaves every claim on either side as it was |
| `Delegation.ChainsNeverExpand` | src/chainmail/governor.py:729-863 | over any in-memory run, every agent whose authority is traced back to a coherent root holds no more than the root, counters included, whatever the other agents hold |
| `Delegation.ChainStaysWithinItsRoot` | src/chainmail/governor.py:729-817 | whatever is handed on from an agent without overlapping permissions, over any number of hops, stays within what it held |
| `Delegation.DurableChainsNeverExpandCeilings` | src/chainmail/governor.py:739-803 | through the store, with racing governors publishing from stale reads, no traced agent exceeds the root in coverage or budget ceilings |
| `Delegation.DurableHopWithinRemainingExactly` | src/chainmail/persistence.py:1878-1891 | a durable hop stays within what the delegator has left, for every offer, if and only if the delegator has spent nothing |
| `Delegation.ReachableStaysBelowCeilings` | src/chainmail/governor.py:164-197 | in every reachable state, in memory and through the store with stale publications, every live permission is dominated by one of the agent's envelope ceiling |
| `Delegation.ConsumingIsASpend` | src/chainmail/core.py:192-209 | a spend of the algebra is nothing or a spending move of the delegation machine |
| `Restrictions.PruningIsHarmlessExactly` | src/chainmail/governor.py:530-558 | pruning at one moment is invisible at another, for every list, if and only if neither step count nor clock went back |
| `Restrictions.LazyListAnswersLikeHistory` | src/chainmail/governor.py:537-558 | the pruned list and the full history have the same active set |
| `Pipeline.MappedMonotone` | src/chainmail/governor.py:1083-1097 | more signals or a higher re-entry level never map to a laxer decision |
| `Pipeline.RiskierReadingsMapStricter` | src/chainmail/governor.py:1038-1097 | less overlap, more drift, less consensus or higher re-entry never map to a laxer decision |
| `Verdicts.PassesExactly` | src/chainmail/governor.py:891-1036 | the gates together are exactly the listed conditions on proposal, policy and memory |
| `Verdicts.AssessmentExactly` | src/chainmail/governor.py:1038-1097 | the assessment in terms of readings and thresholds: reserved signals and high re-entry, then anomalies, then caution |
| `Verdicts.ReservedForHumans` | src/chainmail/governor.py:1083-1089 | a refused gate, a raised signal the policy reserves, or high re-entry goes to a human and nothing is executed or spent |
| `Verdicts.RecheckAndRestrictExactly` | src/chainmail/governor.py:1090-1132 | past the gates and short of a human: anomalies are rechecked, caution restricts, and the rest is up to the peers and the boundary |
| `Verdicts.ExecutedAndSpentExactly` | src/chainmail/governor.py:1209-1227 | the boundary is called, and a unit spent, exactly when nothing stands in the way, and by exactly that much |
| `Verdicts.CountedOrUntouched` | src/chainmail/governor.py:891-971 | an attempt that is not admitted changes nothing; one that is admitted is counted |
| `Verdicts.OtherAgentsUntouched` | src/chainmail/governor.py:879-1296 | an evaluation leaves what is held of every other agent as it was |
| `Verdicts.MismatchGoesToAHuman` | src/chainmail/governor.py:1084-1086 | too little overlap under the default policy goes to a human |
| `Pipeline.ContinueExactly` | src/chainmail/governor.py:891-1284 | lists every condition for CONTINUE, both ways; it unfolds the verdict that `Governor.ChainmailGovernor.Evaluate` is proved to return |
| `Pipeline.StrictnessOnlyRises` | src/chainmail/governor.py:1083-1284 | no later stage lowers the strictness of the risk assessment |
| `Pipeline.OneGuardedExecution` | src/chainmail/governor.py:1119-1220 | at most one call of the boundary, behind every gate, the assessment and the peers; it unfolds the state that `Governor.ChainmailGovernor.Evaluate` is proved to leave |
| `GovernorRuns.RestrictionBlocksWhileLive` | src/chainmail/governor.py:1232-1257 | over any run of evaluations, delegations and revocations, an imposed restriction sends every later request of the agent that covers it to a human while it is live, unless a clock reading in between lay later |
| `GovernorRuns.EveryCallIsAMove` | src/chainmail/governor.py:689-863 | what any call does to live authority is nothing or a move of the delegation machine |
| `Pipeline.VetoPrecedesExecution` | src/chainmail/governor.py:1119-1132 | any HUMAN vote prevents the call of the boundary |
| `Pipeline.RestrictedNeverContinues` | src/chainmail/governor.py:1003-1023 | a live restriction on anything the request covers always ends with a human |
| `Pipeline.DueSpendSucceeds` | src/chainmail/governor.py:1026-1225 | the spend whose result step 17 ignores always succeeds |
| `Pipeline.OnlySpendingTouchesAuthority` | src/chainmail/governor.py:1224-1225 | live authority changes by the spend and by nothing else in the state that `Governor.ChainmailGovernor.Evaluate` is proved to leave |
| `Pipeline.EvaluationIsASpend` | src/chainmail/governor.py:1224-1225 | what an evaluation does to live authority is nothing or a spending move of the delegation machine |
| `Pipeline.ChargedGovernsExactly` | src/chainmail/governor.py:1025-1030 | the charged permission is the one that governs the request among the unrestricted ones if and only if no active restriction touches it |
| `Pipeline.RestrictedPermissionIsCharged` | src/chainmail/governor.py:1025-1225 | a concrete request paid from a restricted permission while the one left is used up |
| `Pipeline.SpendsPlusRemainingConstant` | src/chainmail/governor.py:1224-1225 | over any run of evaluations, units paid plus units remaining is constant for each metered counter |
| `GovernorRuns.ExecutionsWithinStepBudget` | src/chainmail/governor.py:961-985 | over any run of calls, the boundary is called at most as often as the fleet has steps |
| `GovernorLives.NonceIsRememberedExactly` | src/chainmail/governor.py:476-489 | over any run, a used nonce is known if and only if fewer than the cap of others were used since |
| `GovernorLives.IdIsRememberedExactly` | src/chainmail/governor.py:922-927 | the same for deduplicated proposal ids |
| `GovernorLives.KnownIdentifierIsRefused` | src/chainmail/governor.py:476-489 | a known identifier goes to a human and changes nothing |
| `GovernorLives.LifetimeExactly` | src/chainmail/governor.py:604-620 | for how many attempts or seconds a restriction is live, under each policy, with the defaults |
| `GovernorLives.StepRestrictionLasts` | src/chainmail/governor.py:604-620 | over any run, a step restriction blocks covering requests for that many counted attempts, whatever the clocks |
| `GovernorLives.TimedRestrictionLasts` | src/chainmail/governor.py:604-620 | over any run, a timed restriction blocks covering requests for that many seconds |
| `GovernorLives.HumanRestrictionLasts` | src/chainmail/governor.py:604-620 | over any run, a human-only restriction blocks covering requests for ever |
| `GovernorLives.BudgetStarts` | src/chainmail/governor.py:604-641 | a restriction under the step-budget policy starts the policy's budget, ten when it sets none |
| `GovernorLives.StepBudgetLetsThroughExactly` | src/chainmail/governor.py:646-659 | over any run, a step budget of n stops none of the next n evaluations that reach its gate and stops the one after |
| `Governor.ChainmailGovernor.Admit` | src/chainmail/governor.py:891-971 | structure, identity, signature and replay gates; what an admitted attempt consumes |
| `Governor.ChainmailGovernor.ActiveRestrictions` | src/chainmail/governor.py:537-558 | the live restrictions, and the list pruned of dead ones |
| `Governor.ChainmailGovernor.EffectiveAuthority` | src/chainmail/governor.py:585-602 | an effective authority of the agent's live authority under the restrictions live now |
| `Governor.ChainmailGovernor.CheckStepBudget` | src/chainmail/governor.py:646-659 | the step-budget gate and what it leaves of the counter |
| `Governor.ChainmailGovernor.Authorise` | src/chainmail/governor.py:976-1036 | limits, schema, denials, permission, budget and step-budget gates, and the state they leave |
| `Governor.ChainmailGovernor.Restrict` | src/chainmail/governor.py:604-641 | the restriction or step budget that is remembered |
| `Governor.ChainmailGovernor.Evaluate` | src/chainmail/governor.py:879-1296 | the whole in-memory evaluation: its verdict and its complete new state |
| `Governor.ChainmailGovernor.CheckOffer` | src/chainmail/governor.py:731-752 | identity, roles and containment against the effective authority, in order |
| `Governor.ChainmailGovernor.RegisterDelegation` | src/chainmail/governor.py:689-829 | the answer is exactly the first failing check, or success; success is a delegation move of the state machine, refusal changes no authority |
| `Governor.ChainmailGovernor.RevokeDelegation` | src/chainmail/governor.py:831-863 | a known agent goes back to its ceiling, an unknown one is refused |
| `Roles.AnswersExactly` | src/chainmail/governor.py:731-803 | every answer to an offer, if and only if, in terms of the envelope's maps and what was read |
| `Roles.ForbiddenOfferChangesNothing` | src/chainmail/governor.py:742-749 | over any run, no offer between roles the map forbids changes any authority |
| `Roles.CutOffAgentOnlyLoses` | src/chainmail/governor.py:742-749 | over any run, an agent that only forbidden delegators make offers to never gains anything |
| `Roles.SuccessIsAllowed` | src/chainmail/governor.py:742-776 | a success is between roles the map allows, of what the delegator held, and leaves the clamp, alone or beside what was there |
| `Roles.ReceivedExactly` | src/chainmail/governor.py:754-776 | a replacing hop leaves the clamp, a merging one everything on both sides |
| `Roles.LeadToWorkerOnly` | src/chainmail/governor.py:742-749 | an instance in which one direction is allowed and the other refused |
| `Fleet.ConsumedPlusRemainingIsPublished` | src/chainmail/persistence.py:1855-1941 | in every interleaving, consumed plus remaining equals the published budget of each metered row, and nothing goes below zero |
| `FleetSafety.ExecutionPaidExactlyOnce` | src/chainmail/governor.py:1083-1220 | each metered execution is preceded by exactly one consume of its own on its own row, an unlimited one has none; it was assessed CONTINUE and never otherwise, the peers agreed, its claims were granted, and its permission governs the request in the re-read effective authority |
| `FleetStages.StagesInOrder` | src/chainmail/governor.py:891-1260 | in every interleaving an evaluation passes its stages in order, skips none, and only a paid one executes |
| `FleetRestrictions.ExecutionAuthorisedFreshly` | src/chainmail/governor.py:1162-1190 | every execution rests on two store reads of its own, rows then restrictions, and its permission was held at the first and untouched by the second |
| `FleetRestrictions.RestrictionStopsEveryGovernor` | src/chainmail/governor.py:530-602 | while a restriction is neither cleared nor marked expired, no governor executes a request that covers it, unless the evaluation had already re-read the restrictions or that governor's own moment was past the expiry |
| `FleetRestrictions.HumanRestrictionHoldsUntilCleared` | src/chainmail/governor.py:530-535 | one that only a human ends stops every governor, whatever its clock or step count, until someone clears it |
| `FleetRestrictions.WithdrawnAuthorityStopsEveryGovernor` | src/chainmail/governor.py:1162-1190 | once an agent holds no row for a request and none is published, no governor executes it unless the evaluation had already re-read the rows, restarts included |
| `FleetSafety.ExecutesAtMostOnce` | src/chainmail/governor.py:1209-1220 | an evaluation calls the boundary at most once in every interleaving |
| `FleetSafety.NoRequestExecutesTwice` | src/chainmail/governor.py:404-474 | across governors, restarts and policy changes no nonce of an agent and no deduplicated proposal id executes twice |
| `FleetSafety.DecisionsNeverSoften` | src/chainmail/governor.py:1083-1260 | in every interleaving, a final decision is never laxer than the assessment before it |
| `FleetSafety.PaidExecutionsWithinBudget` | src/chainmail/governor.py:1134-1205 | executions paid from one publication of a row never exceed its budget, however governors race |
| `FleetSafety.ConsumeTakesOneUnitOfOneRow` | src/chainmail/persistence.py:1894-1941 | a recorded consume met an existing row with a unit left and changed nothing else |
| `FleetSafety.RestartsRenewNothing` | src/chainmail/governor.py:186-197 | without a publication for the agent, no run of restarts under any envelopes changes its rows or ceilings or raises a counter |
| `FleetSteps.CallsWithinStepBudget` | src/chainmail/persistence.py:1945-2002 | in every interleaving the boundary is called no more often than the fleet's or the agent's shared counter was charged, and no more often than the largest limit any governor holds it to |
| `FleetSteps.ChargeAddsOneHolder` | src/chainmail/governor.py:949-985 | charging a counter lets at most one more evaluation through, and none once the limit is reached |
| `FleetProgress.AloneExecutes` | src/chainmail/governor.py:891-1284 | a request nothing on the store stands in the way of is executed by a governor alone, and takes exactly its claims, its counts and one unit of its row |
| `FleetProgress.ClaimStepExactly` | src/chainmail/persistence.py:1042-1134 | a claim is denied if and only if it is needed and taken, else it is taken and nothing else changes |
| `FleetProgress.CountStepsExactly` | src/chainmail/persistence.py:1945-2002 | both counters go up, and the attempt is denied if and only if either is past its limit |
| `FleetProgress.AuthorityStepExactly` | src/chainmail/governor.py:1004-1036 | the first reading denies if and only if nothing unrestricted covers the request or the governing row is used up |
| `FleetProgress.PaymentStepExactly` | src/chainmail/governor.py:1184-1205 | payment denies if and only if the governing permission is metered and its row is gone or used up |
| `FleetProgress.BoundaryDecidesExactly` | src/chainmail/governor.py:1209-1220 | the boundary is called once when wired, and CONTINUE results if and only if it accepts or none is wired |
| `FleetProgress.DecisionLeadsOn` | src/chainmail/governor.py:1083-1132 | after an assessment or a ruling the only way on is the one that decision calls for |
| `FleetProgress.EndsExactly` | src/chainmail/governor.py:1228-1260 | what an evaluation that ends otherwise leaves on the store and in the log |
| `FleetProgress.StoreActsExactly` | src/chainmail/persistence.py:1787-1892 | what publications, expiries and clearings change, and that they change nothing else |
| `FleetDelegation.HopIsADurableMove` | src/chainmail/governor.py:737-803 | publishing an accepted hop on the rows is a durable move of the delegation machine from what it read |
| `FleetDelegation.RevocationIsADurableMove` | src/chainmail/governor.py:843-853 | publishing a ceiling on the rows is a durable revocation |
| `FleetDelegation.FleetChainsNeverExpand` | src/chainmail/governor.py:689-829 | in every interleaving, no agent traced back to a root by accepted hops has rows beyond it in coverage or budget ceilings, however stale the reads |
| `AuthorityStore.PublishedReadsBack` | src/chainmail/persistence.py:1826-1892 | a published permission list is read back exactly |
| `AuthorityStore.SQLiteAuthority.InitializeAgentAuthority` | src/chainmail/persistence.py:1787-1824 | seeds once, and later calls change nothing |
| `AuthorityStore.SQLiteAuthority.ReplaceLiveAuthority` | src/chainmail/persistence.py:1855-1892 | replaces all rows of the agent and marks it initialised |
| `AuthorityStore.SQLiteAuthority.ConsumePermissionBudget` | src/chainmail/persistence.py:1894-1941 | the conditional update: when it succeeds and the one counter it changes |
| `AuthorityStore.SQLiteAuthority.IncrementStepCounter` | src/chainmail/persistence.py:1945-2002 | the count returned is the one this call produced |
| `AuthorityStore.SQLiteAuthority.PeekStepCounter` | src/chainmail/persistence.py:2004-2021 | the count as it is, zero when the scope has none |
| `AuthorityStore.SQLiteAuthority.SeedFromEnvelope` | src/chainmail/governor.py:186-197 | the startup loop seeds unseen agents from their ceilings and touches no other |
| `AuthorityStore.SeedOneIsAStep` | src/chainmail/persistence.py:1787-1824 | the store method that seeds an agent is the initialisation step of the interleaved model |
| `DurableAuthority.SpendingAgreesExactly` | src/chainmail/governor.py:517-528 | the conditional update and the object read from the rows agree, for every reading, if and only if the rows sharing the counter key are all used up or all not |
| `DurableAuthority.CollidingKeysDisagree` | src/chainmail/governor.py:517-528 | two rows whose names and scopes join to one key, where they disagree |
| `DurableAuthority.SpendingCorrespondsExactly` | src/chainmail/persistence.py:1894-1941 | the rows after a durable spend read back as the authority after an in-memory spend, for every reading, if and only if every other counter under the same key has a third row one unit below it |
| `DurableAuthority.RestrictionsNeverFreeExactly` | src/chainmail/governor.py:1162-1205 | restrictions never make a metered request free if and only if no metered wildcard row masks an unlimited one |
| `DurableAuthority.RestrictionFreesRequest` | src/chainmail/governor.py:1162-1205 | concrete rows on which a restriction elsewhere makes a metered request free |
| `DurableAuthority.OwnKeyCorresponds` | src/chainmail/persistence.py:1894-1941 | both always agree when no other metered row has the same counter key |
| `Replay.AtMostOnce` | src/chainmail/persistence.py:1042-1134 | each nonce of an agent and each proposal id is granted at most once, for any agents, store outages and cache sizes, which may differ between governors |
| `Replay.CacheInvisible` | src/chainmail/governor.py:427-473 | with prefix-free agent ids, or without nonce caches, every decision is the one the bare claim set would give |
| `Replay.TransparentExactly` | src/chainmail/governor.py:398-402 | the cache never changes a decision if and only if no agent id extends another by a colon or no governor caches nonces |
| `Replay.TableIsLastAccepted` | src/chainmail/governor.py:392-396 | without a store the table is exactly the last `cap` accepted keys |
| `Replay.ReacceptanceIsFarApart` | src/chainmail/governor.py:476-489 | two acceptances of one key are separated by at least `cap` others |
| `Replay.ReplayGuard.Remember` | src/chainmail/governor.py:392-396 | the key becomes the most recent and the oldest beyond the cap go |
| `Replay.ReplayGuard.ClaimDurably` | src/chainmail/governor.py:427-474 | the durable claim of nonce and proposal id: verdict and both tables |
| `Replay.ReplayGuard.ClaimInMemory` | src/chainmail/governor.py:476-489 | the in-memory claim: verdict and both tables |
| `Migration.ForwardRecovers` | src/chainmail/persistence.py:930-995 | stripping the known suffix recovers every namespace exactly |
| `Migration.ConsumedBeforeIsRefusedAfter` | src/chainmail/persistence.py:930-995 | an identifier is refused after the migration if and only if it was consumed before under some fingerprint |
| `Migration.NonceRefusedExactly` | src/chainmail/persistence.py:930-995 | a nonce is refused if and only if an old row of its namespace and agent held it |
| `Migration.ProposalRefusedExactly` | src/chainmail/persistence.py:930-995 | a proposal id is refused if and only if an old row of its namespace held it |
| `Migration.MigrateRows` | src/chainmail/persistence.py:953-971 | the loop's claims, and the count of rows that did not collapse |
| `Chain.RearrangementIsPrefix` | src/chainmail/persistence.py:280-297 | links of a valid chain, selected in any order with any repetition, are valid if and only if they are a prefix |
| `Chain.EqualTipsEqualChains` | src/chainmail/persistence.py:280-297 | a valid chain is determined by its last digest |
| `HashChain.ManyWriters` | src/chainmail/persistence.py:317-366 | any interleaving of instances keeps the file a valid chain that only grows and every view a prefix of it |
| `HashChain.EveryAppendLandsAtTheTip` | src/chainmail/persistence.py:331-357 | an append lands at the file's tip whatever stale view the writer held, and its view catches up |
| `HashChain.AppendKeepsValidityExactly` | src/chainmail/persistence.py:299-315 | the file is valid after an append if and only if it was before |
| `HashChain.EqualTipsEqualLogs` | src/chainmail/persistence.py:280-297 | two valid logs with equal tips are equal |
| `HashChain.HashChainLog.Verify` | src/chainmail/persistence.py:280-297 | reports the first record that does not fit, or validity |
| `HashChain.HashChainLog.Load` | src/chainmail/persistence.py:251-278 | succeeds exactly on a readable valid file and then holds its records |
| `HashChain.HashChainLog.Append` | src/chainmail/persistence.py:317-377 | refusals, the new file and the new view, with and without a file |
| `Ledger.SelectionVerifiesExactlyAsPrefix` | src/chainmail/persistence.py:1553-1580 | any selection of a verified ledger verifies if and only if it is a prefix |
| `Ledger.DeletionCaught` | src/chainmail/persistence.py:1553-1580 | deleting one entry goes unnoticed if and only if it is the tip |
| `Ledger.EqualTipsAgree` | src/chainmail/persistence.py:1553-1580 | verified ledgers with equal tips agree on everything but key names |
| `Ledger.EqualTipsEqualLedgersExactly` | src/chainmail/persistence.py:232-239 | equal tips mean equal ledgers if and only if no two ids share a key |
| `Ledger.RotationKeepsVerifyingExactly` | src/chainmail/persistence.py:162-168 | rotation keeps a ledger verifying if and only if it rebinds no id the ledger was written under |
| `Ledger.InMemoryKeyProvider.Rotate` | src/chainmail/persistence.py:162-168 | the new key becomes current and every other stays resolvable |
| `Ledger.VerifyHashChain` | src/chainmail/persistence.py:1553-1580 | the walk accepts exactly the verified ledgers and reports the row that breaks: the prefix before it verifies and the one with it does not |
| `Ledger.LedgerTable.Append` | src/chainmail/persistence.py:1533-1551 | one entry chained onto the tip keeps the ledger verified |
| `RestrictionStore.RunsNeverTripTheRead` | src/chainmail/persistence.py:1299-1337 | runs of operations, rotations included, never make the read raise |
| `RestrictionStore.LatestEventIsStatus` | src/chainmail/persistence.py:1177-1244 | the latest ledger event is IMPOSED, EXPIRED or CLEARED exactly when the row is ACTIVE, EXPIRED or CLEARED |
| `RestrictionStore.TerminalIsForever` | src/chainmail/persistence.py:1339-1462 | no row disappears or changes terms, and one that is no longer active never changes again |
| `RestrictionStore.ActiveUntilEnded` | src/chainmail/persistence.py:1246-1462 | over any run, a freshly imposed restriction is active with its terms until the first expiry or clearing that names it, and not after |
| `RestrictionStore.ImposedIsActive` | src/chainmail/persistence.py:1264-1288 | an imposition makes exactly that row active with its terms |
| `RestrictionStore.EndedLeaves` | src/chainmail/persistence.py:1339-1462 | an expiry leaves EXPIRED, a clearing CLEARED, and no other row changes |
| `RestrictionStore.EditedTableHidesNothing` | src/chainmail/persistence.py:1204-1244 | after any edit of the table alone, a read that does not raise names every active restriction |
| `RestrictionStore.OwnRowsAreNotForged` | src/chainmail/persistence.py:1246-1297 | every row code that an operation of the store left was recorded when it was issued, as the next statement asks of an edited table |
| `RestrictionStore.EditedTableCannotWeaken` | src/chainmail/persistence.py:1299-1337 | without forged codes, such a read returns every active restriction with its original terms and none that was never imposed |
| `RestrictionStore.SQLiteRestrictions.Impose` | src/chainmail/persistence.py:1246-1297 | a fresh id is written with its ledger entry, anything else changes nothing |
| `RestrictionStore.SQLiteRestrictions.MarkExpired` | src/chainmail/persistence.py:1339-1387 | true exactly when this call performed the transition |
| `RestrictionStore.SQLiteRestrictions.ClearRestriction` | src/chainmail/persistence.py:1389-1462 | which of the four answers is given when, and what changes |
| `RestrictionStore.SQLiteRestrictions.ActiveRestrictions` | src/chainmail/persistence.py:1299-1337 | raises exactly when a row or the cross-check fails, else returns the active rows |
| `Checkpoint.RunSafe` | src/chainmail/persistence.py:1661-1703 | under any scheduling of phases and crashes the external number never passes the local one and never goes back |
| `Checkpoint.StepSafe` | src/chainmail/persistence.py:854-893 | opening the live file never raises, a successful open leaves both numbers equal, a copy raises exactly when it is behind |
| `Checkpoint.UninterruptedAdvance` | src/chainmail/persistence.py:1661-1703 | a bump and a push without interference always succeed and leave both numbers equal and one higher |
| `Checkpoint.LiveFileAlwaysReopens` | src/chainmail/persistence.py:872-893 | after any run the live file reopens with equal numbers |
| `Checkpoint.PassedBackupNeverOpens` | src/chainmail/persistence.py:877-893 | a backup the external number has passed is never accepted again |
| `Checkpoint.OpenedIsNoOlderThanPushed` | src/chainmail/persistence.py:854-893 | any file that opens is at least as recent as every number pushed before |
| `Checkpoint.BackupOpensExactly` | src/chainmail/persistence.py:854-893 | a backup opens at any later closed point if and only if the external number has not passed it, and then takes both numbers back to it |
| `Checkpoint.InMemoryRollbackCheckpoint.Advance` | src/chainmail/persistence.py:224-229 | refuses to go back |
| `Checkpoint.CheckpointedStore.CheckRollback` | src/chainmail/persistence.py:854-893 | the three cases at construction, as the protocol's open step |
| `Checkpoint.CheckpointedStore.AdvanceCheckpoint` | src/chainmail/persistence.py:1661-1703 | local bump first, then the external push of the same value |
| `Quorum.WeightBounds` | src/chainmail/quorum.py:56-70 | with positive weights a decision weighs everything exactly when all votes are for it and nothing exactly when none is |
| `Quorum.WeightEqualityIsUnanimity` | src/chainmail/quorum.py:67-70 | some decision weighs as much as the total if and only if all votes agree |
| `Quorum.OrderDoesNotMatter` | src/chainmail/quorum.py:52-94 | the outcome is invariant under permutation of the votes |
| `Quorum.AnyHumanVoteRules` | src/chainmail/quorum.py:61-65 | any HUMAN vote gives HUMAN, in the ruling that `Quorum.QuorumAggregator.Aggregate` is proved to return |
| `Quorum.ContinueNeedsUnanimity` | src/chainmail/quorum.py:67-79 | with escalation on disagreement, CONTINUE results if and only if the vote is unanimous, in the ruling that `Quorum.QuorumAggregator.Aggregate` is proved to return |
| `Quorum.OutcomeIsBacked` | src/chainmail/quorum.py:52-94 | any outcome other than HUMAN is unanimous or carries the threshold's share of the weight |
| `Quorum.TolerantOutcomeExactly` | src/chainmail/quorum.py:67-94 | with disagreement tolerated and no HUMAN vote: unanimity decides, else the first of CONTINUE, RESTRICT and RECHECK to carry the share, else HUMAN |
| `Quorum.EscalatingOutcomeExactly` | src/chainmail/quorum.py:72-79 | with escalation, a CONTINUE that is not unanimous becomes HUMAN and nothing else changes |
| `Quorum.SilenceIsNoConsent` | src/chainmail/quorum.py:52-56 | a quorum that hears nobody refuses |
| `Quorum.OneVoteInThreeDoesNotContinue` | src/chainmail/quorum.py:73-89 | one vote of three for CONTINUE against two for RESTRICT restricts at a threshold of one half |
| `Quorum.WithdrawnConsentNeverContinues` | src/chainmail/quorum.py:72-94 | moving a vote away from CONTINUE never turns a refusal into CONTINUE |
| `Quorum.QuorumAggregator.Aggregate` | src/chainmail/quorum.py:52-94 | the weight tests decide exactly what the votes say |
| `Payload.WithinBudget` | src/chainmail/core.py:422-454 | accepts exactly the trees that fit the remaining depth and budget, and uses up one unit per value |
| `Payload.WithinLimitsExactly` | src/chainmail/core.py:422-454 | the accepted trees are those of at most 10,000 values, none deeper than eight levels, with string keys of at most 256 characters, texts of at most 65,536 and no foreign value |
| `Payload.PayloadWithinLimits` | src/chainmail/core.py:422-454 | accepts exactly the trees within all limits and looks at no more than 10,001 values |

## Left out

- `Governor.ChainmailGovernor.Evaluate`: signals and reason texts of a denial, intent-graph entries and the returned authority copy; the model keeps decisions and state.
- `Governor.ChainmailGovernor.RegisterDelegation`: provenance links and message texts.
- The shared identity of a live authority and an unrestricted effective one: the governor keeps authorities as values, so aliasing is not captured.
- `Quorum.QuorumAggregator.Aggregate`: weights are reals, so rounding of floating-point sums and thresholds is not captured.
- `RestrictionStore.SQLiteRestrictions.MarkExpired`: a ledger that cannot be extended leaves the state as it was; errors in the middle of a transaction are not modelled.
- `AuthorityStore.SQLiteAuthority.ReplaceLiveAuthority`: requires distinct rows, since the unique-key error inside its transaction is not modelled.
- `AuthorityStore.SQLiteAuthority.InitializeAgentAuthority`: requires distinct rows, for the same reason.
- `AuthorityStore.SQLiteAuthority.SeedFromEnvelope`: requires distinct rows in every ceiling, for the same reason.
- `Fleet.ConsumedPlusRemainingIsPublished`: one namespace; published rows are arbitrary, and `FleetDelegation` says which of them are accepted hops.
- `FleetRestrictions.RestrictionStopsEveryGovernor`: two restrictions of an agent with the same permission and expiry are one, so clearing one clears both.
- `Pipeline.SpendsPlusRemainingConstant`: one clock reading serves all restriction checks of an evaluation.
- `Checkpoint.RunSafe`: several processes advancing one counter outside a common lock are not modelled.
- Row codes of the authority, claim and step tables, and the initialization marker's cross-check: the same mechanism is modelled on restrictions and ledgers.
- Failure of the last audit record is an input that turns the answer into HUMAN; the spend and the execution stand, as in the source.
- Real HMAC, SHA-256 and Ed25519, the key registry, JSON, SQL text, file locking and write-ahead modes.
- Path validation, payload schemas, embeddings, the intent graph's scores and personal-data scrubbing.
- The socket service, client, tracing, reports, snapshots, envelope suggestions and the unmaintained `legacy/` code.
