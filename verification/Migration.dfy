/** Carrying replay claims from the scope-string tables of schema version 2 into explicit columns. */
module Migration {
  import opened Replay

  /** A claim as version 2 knew it; uniqueness then included the envelope fingerprint. */
  datatype OldClaim =
    | OldNonce(namespace: string, fingerprint: string, agent: string, nonce: string)
    | OldProposal(namespace: string, fingerprint: string, proposalId: string)

  /** A stored row: the namespace survives only inside `scope`. */
  datatype OldRow =
    | NonceRow(scope: string, fingerprint: string, agent: string, nonce: string)
    | ProposalRow(scope: string, fingerprint: string, proposalId: string)

  function Suffix(r: OldRow): string {
    match r
    case NonceRow(_, fingerprint, agent, _) => ":" + fingerprint + ":" + agent
    case ProposalRow(_, fingerprint, _) => ":" + fingerprint
  }

  /** How version 2 stored a claim. */
  function Stored(c: OldClaim): OldRow {
    match c
    case OldNonce(ns, fp, agent, nonce) => NonceRow(ns + (":" + fp + ":" + agent), fp, agent, nonce)
    case OldProposal(ns, fp, pid) => ProposalRow(ns + (":" + fp), fp, pid)
  }

  /** What version 3 makes of a claim: the fingerprint no longer counts. */
  function Projected(c: OldClaim): Claim {
    match c
    case OldNonce(ns, _, agent, nonce) => NonceClaim(ns, agent, nonce)
    case OldProposal(ns, _, pid) => ProposalClaim(ns, pid)
  }

  predicate EndsWith(s: string, suffix: string) {
    |suffix| <= |s| && s[|s| - |suffix|..] == suffix
  }

  function NamespaceOf(r: OldRow): string {
    if EndsWith(r.scope, Suffix(r)) then r.scope[..|r.scope| - |Suffix(r)|] else r.scope
  }

  function Forward(r: OldRow): Claim {
    match r
    case NonceRow(_, _, agent, nonce) => NonceClaim(NamespaceOf(r), agent, nonce)
    case ProposalRow(_, _, pid) => ProposalClaim(NamespaceOf(r), pid)
  }

  /** Stripping the known suffix recovers the namespace exactly, whatever characters it holds. */
  lemma ForwardRecovers(c: OldClaim)
    ensures NamespaceOf(Stored(c)) == c.namespace && Forward(Stored(c)) == Projected(c)
  {}

  function StoredAll(before: seq<OldClaim>): (rows: seq<OldRow>)
    ensures |rows| == |before| && forall i :: 0 <= i < |before| ==> rows[i] == Stored(before[i])
  {
    seq(|before|, i requires 0 <= i < |before| => Stored(before[i]))
  }

  function ForwardAll(rows: seq<OldRow>): set<Claim> {
    if rows == [] then {} else ForwardAll(rows[..|rows| - 1]) + {Forward(rows[|rows| - 1])}
  }

  ghost predicate Consumed(before: seq<OldClaim>, c: Claim) {
    exists i :: 0 <= i < |before| && Projected(before[i]) == c
  }

  lemma ConsumedSnoc(before: seq<OldClaim>, c: Claim)
    requires before != []
    ensures Consumed(before, c) <==> Consumed(before[..|before| - 1], c) || Projected(before[|before| - 1]) == c
  {}

  /** The new claims are exactly the projection of the old ones. */
  lemma {:induction false} ForwardAllRecovers(before: seq<OldClaim>, c: Claim)
    ensures c in ForwardAll(StoredAll(before)) <==> Consumed(before, c)
  {
    if before != [] {
      var n := |before| - 1;
      assert StoredAll(before)[..n] == StoredAll(before[..n]);
      ForwardAllRecovers(before[..n], c);
      ForwardRecovers(before[n]);
      ConsumedSnoc(before, c);
    }
  }

  /** After the migration an identifier is refused exactly when it was consumed before, under any fingerprint. */
  lemma ConsumedBeforeIsRefusedAfter(before: seq<OldClaim>, a: Attempt)
    requires a.up
    ensures !BareGranted(ForwardAll(StoredAll(before)), a) <==> Consumed(before, ClaimOf(a))
  {
    ForwardAllRecovers(before, ClaimOf(a));
  }

  /** For a nonce: some old row of the same namespace and agent held it, whatever its fingerprint. */
  lemma NonceRefusedExactly(before: seq<OldClaim>, a: Attempt)
    requires a.TryNonce? && a.up
    ensures !BareGranted(ForwardAll(StoredAll(before)), a) <==>
              exists fingerprint :: OldNonce(a.gov.namespace, fingerprint, a.agent, a.nonce) in before
  {
    ConsumedBeforeIsRefusedAfter(before, a);
    if fingerprint :| OldNonce(a.gov.namespace, fingerprint, a.agent, a.nonce) in before {
      var i :| 0 <= i < |before| && before[i] == OldNonce(a.gov.namespace, fingerprint, a.agent, a.nonce);
      assert Projected(before[i]) == ClaimOf(a);
    }
    if i :| 0 <= i < |before| && Projected(before[i]) == ClaimOf(a) {
      assert before[i] == OldNonce(a.gov.namespace, before[i].fingerprint, a.agent, a.nonce);
    }
  }

  /** For a proposal id: some old row of the same namespace held it. */
  lemma ProposalRefusedExactly(before: seq<OldClaim>, a: Attempt)
    requires a.TryProposal? && a.up
    ensures !BareGranted(ForwardAll(StoredAll(before)), a) <==>
              exists fingerprint :: OldProposal(a.gov.namespace, fingerprint, a.proposalId) in before
  {
    ConsumedBeforeIsRefusedAfter(before, a);
    if fingerprint :| OldProposal(a.gov.namespace, fingerprint, a.proposalId) in before {
      var i :| 0 <= i < |before| && before[i] == OldProposal(a.gov.namespace, fingerprint, a.proposalId);
      assert Projected(before[i]) == ClaimOf(a);
    }
    if i :| 0 <= i < |before| && Projected(before[i]) == ClaimOf(a) {
      assert before[i] == OldProposal(a.gov.namespace, before[i].fingerprint, a.proposalId);
    }
  }

  /** Inserts every old row, ignoring conflicts, and counts the rows that were not collapsed. */
  method MigrateRows(rows: seq<OldRow>, claims: set<Claim>) returns (after: set<Claim>, migrated: nat)
    ensures after == claims + ForwardAll(rows)
    ensures migrated == |after| - |claims| && migrated <= |rows|
  {
    after, migrated := claims, 0;
    for i := 0 to |rows|
      invariant after == claims + ForwardAll(rows[..i])
      invariant migrated == |after| - |claims| && migrated <= i
    {
      var claim := Forward(rows[i]);
      assert rows[..i + 1][..i] == rows[..i];
      if claim !in after {
        GrowsByOne(claims, after, claim);
        migrated := migrated + 1;
        after := after + {claim};
      }
    }
    assert rows[..|rows|] == rows;
  }

  lemma GrowsByOne(claims: set<Claim>, after: set<Claim>, c: Claim)
    requires c !in after
    ensures |after + {c}| - |claims| == |after| - |claims| + 1
  {}
}
