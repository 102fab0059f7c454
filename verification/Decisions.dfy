/** Decisions, in order of strictness, and the risk signals that lead to them. */
module Decisions {

  datatype Decision = CONTINUE | RESTRICT | RECHECK | HUMAN

  function Strictness(d: Decision): nat {
    match d
    case CONTINUE => 0
    case RESTRICT => 1
    case RECHECK => 2
    case HUMAN => 3
  }

  datatype Signal =
    | DRIFT
    | LOW_CONFIDENCE
    | HIGH_DISAGREEMENT
    | ASSUMPTION_ANOMALY
    | AUTHORITY_ABUSE
    | OBJECTIVE_MISMATCH
    | BUDGET_EXHAUSTED
    | REPLAY_DETECTED
    | SIGNATURE_INVALID
    | SIGNATURE_MISSING
    | SCHEMA_VIOLATION
    | PATH_TRAVERSAL
    | UNKNOWN_ACTION
    | ENVELOPE_DRIFT
    | OBJECTIVE_REENTRY
    | VERIFIER_ERROR
    | SANITIZATION_FAILURE
    | QUORUM_REJECTED
    | FLEET_BUDGET_EXHAUSTED
    | AGENT_BUDGET_EXHAUSTED
    | PROPOSAL_DUPLICATE
    | INVALID_PROPOSAL
    | UNKNOWN_AGENT
    | REPLAY_STORE_UNAVAILABLE
    | RESTRICTION_STORE_UNAVAILABLE
    | AUTHORITY_STORE_UNAVAILABLE
    | STEP_STORE_UNAVAILABLE
}
