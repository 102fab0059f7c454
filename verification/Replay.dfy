/**
 Replay protection: an LRU table in front of durable claims shared by any number
 of governors, and the same table on its own when there is no store.
 */
module Replay {
  // ---- the LRU table ----

  function Without(keys: seq<string>, key: string): seq<string> {
    if keys == [] then []
    else if keys[0] == key then Without(keys[1..], key)
    else [keys[0]] + Without(keys[1..], key)
  }

  function LastOf(keys: seq<string>, n: nat): seq<string> {
    if |keys| <= n then keys else keys[|keys| - n..]
  }

  /** `key` becomes the most recent entry and the oldest ones beyond `cap` go. */
  function Remembered(keys: seq<string>, key: string, cap: nat): seq<string> {
    LastOf(Without(keys, key) + [key], cap)
  }

  lemma {:induction false} WithoutAbsent(keys: seq<string>, key: string)
    requires key !in keys
    ensures Without(keys, key) == keys
  {
    if keys != [] {
      WithoutAbsent(keys[1..], key);
    }
  }

  lemma {:induction false} WithoutSubset(keys: seq<string>, key: string)
    ensures forall k :: k in Without(keys, key) <==> k in keys && k != key
  {
    if keys != [] {
      WithoutSubset(keys[1..], key);
    }
  }

  lemma RememberedOnlyAdds(keys: seq<string>, key: string, cap: nat)
    ensures forall k :: k in Remembered(keys, key, cap) ==> k in keys || k == key
  {
    WithoutSubset(keys, key);
  }

  // ---- claims ----

  datatype Claim =
    | NonceClaim(namespace: string, agent: string, nonce: string)
    | ProposalClaim(namespace: string, proposalId: string)

  /** A governor sharing the store; `id` tells apart governors of one namespace. */
  datatype Governor = Governor(id: nat, namespace: string)

  /** One atomic attempt to claim. `up` is false when the store raises instead of answering. */
  datatype Attempt =
    | TryNonce(gov: Governor, agent: string, nonce: string, up: bool)
    | TryProposal(gov: Governor, proposalId: string, up: bool)

  function ClaimOf(a: Attempt): Claim {
    match a
    case TryNonce(gov, agent, nonce, _) => NonceClaim(gov.namespace, agent, nonce)
    case TryProposal(gov, proposalId, _) => ProposalClaim(gov.namespace, proposalId)
  }

  function CacheKey(agent: string, nonce: string): string {
    agent + ":" + nonce
  }

  function KeyOf(a: Attempt): string {
    match a
    case TryNonce(_, agent, nonce, _) => CacheKey(agent, nonce)
    case TryProposal(_, proposalId, _) => proposalId
  }

  datatype Caps = Caps(nonces: nat, proposals: nat)

  /** Every governor is configured with sizes of its own. */
  type Configured = Governor -> Caps

  function CapOf(caps: Caps, a: Attempt): nat {
    if a.TryNonce? then caps.nonces else caps.proposals
  }

  /** The durable claims and every governor's two tables, most recent entry last. */
  datatype State = State(claims: set<Claim>, nonceCaches: map<Governor, seq<string>>, proposalCaches: map<Governor, seq<string>>)

  const EMPTY := State({}, map[], map[])

  function CacheFor(s: State, a: Attempt): seq<string> {
    var caches := if a.TryNonce? then s.nonceCaches else s.proposalCaches;
    if a.gov in caches then caches[a.gov] else []
  }

  /** The decision of one governor with its cache in front of the store. */
  predicate Granted(s: State, a: Attempt) {
    KeyOf(a) !in CacheFor(s, a) && a.up && ClaimOf(a) !in s.claims
  }

  function After(s: State, a: Attempt, caps: Caps): State {
    if !Granted(s, a) then s
    else
      var cache := Remembered(CacheFor(s, a), KeyOf(a), CapOf(caps, a));
      if a.TryNonce? then
        State(s.claims + {ClaimOf(a)}, s.nonceCaches[a.gov := cache], s.proposalCaches)
      else
        State(s.claims + {ClaimOf(a)}, s.nonceCaches, s.proposalCaches[a.gov := cache])
  }

  function Run(s: State, attempts: seq<Attempt>, caps: Configured): State {
    if attempts == [] then s
    else
      var a := attempts[|attempts| - 1];
      After(Run(s, attempts[..|attempts| - 1], caps), a, caps(a.gov))
  }

  /** Whether attempt `i` of a run from nothing was granted. */
  predicate GrantedAt(attempts: seq<Attempt>, caps: Configured, i: nat)
    requires i < |attempts|
  {
    Granted(Run(EMPTY, attempts[..i], caps), attempts[i])
  }

  // ---- the same attempts against the bare claim set ----

  predicate BareGranted(claims: set<Claim>, a: Attempt) {
    a.up && ClaimOf(a) !in claims
  }

  function BareRun(attempts: seq<Attempt>): set<Claim> {
    if attempts == [] then {}
    else
      var claims := BareRun(attempts[..|attempts| - 1]);
      var a := attempts[|attempts| - 1];
      if BareGranted(claims, a) then claims + {ClaimOf(a)} else claims
  }

  // ---- at most once, for every agent name, cap and eviction history ----

  lemma {:induction false} GrantedIsClaimed(attempts: seq<Attempt>, caps: Configured, i: nat)
    requires i < |attempts| && GrantedAt(attempts, caps, i)
    ensures ClaimOf(attempts[i]) in Run(EMPTY, attempts, caps).claims
    decreases |attempts|
  {
    var n := |attempts| - 1;
    if i < n {
      assert attempts[..n][..i] == attempts[..i];
      GrantedIsClaimed(attempts[..n], caps, i);
    }
  }

  /** Each nonce of an agent and each proposal id is granted at most once in its namespace, ever. */
  lemma AtMostOnce(attempts: seq<Attempt>, caps: Configured, i: nat, j: nat)
    requires i < j < |attempts|
    requires GrantedAt(attempts, caps, i) && GrantedAt(attempts, caps, j)
    ensures ClaimOf(attempts[i]) != ClaimOf(attempts[j])
  {
    assert attempts[..j][..i] == attempts[..i];
    GrantedIsClaimed(attempts[..j], caps, i);
  }

  // ---- when the cache is invisible ----

  /** No agent id extends another by a colon. Colon-free ids are a special case. */
  ghost predicate PrefixFree(agents: set<string>) {
    forall a, b :: a in agents && b in agents ==> !Extends(b, a)
  }

  predicate Extends(b: string, a: string) {
    |b| > |a| && b[..|a|] == a && b[|a|] == ':'
  }

  ghost predicate FromAgents(attempts: seq<Attempt>, agents: set<string>) {
    forall i :: 0 <= i < |attempts| && attempts[i].TryNonce? ==> attempts[i].agent in agents && attempts[i].nonce != ""
  }

  /** Two agents' cache keys collide only if one id extends the other by a colon. */
  lemma KeysCollideOnlyByExtension(a: string, n: string, b: string, m: string)
    requires CacheKey(a, n) == CacheKey(b, m)
    ensures (a == b && n == m) || Extends(a, b) || Extends(b, a)
  {
    var x, y := CacheKey(a, n), CacheKey(b, m);
    assert x[..|a|] == a && x[|a|] == ':' && x[|a| + 1..] == n;
    assert y[..|b|] == b && y[|b|] == ':' && y[|b| + 1..] == m;
    if |a| < |b| {
      assert b[..|a|] == y[..|b|][..|a|] == x[..|a|] == a;
      assert b[|a|] == y[|a|] == x[|a|];
    } else if |b| < |a| {
      assert a[..|b|] == x[..|a|][..|b|] == y[..|b|] == b;
      assert a[|b|] == x[|b|] == y[|b|];
    }
  }

  ghost predicate ClaimBehind(claims: set<Claim>, namespace: string, agents: set<string>, key: string) {
    exists agent, nonce :: agent in agents && key == CacheKey(agent, nonce) && NonceClaim(namespace, agent, nonce) in claims
  }

  /** Every cached key stands for a durable claim. */
  ghost predicate CachesSound(s: State, agents: set<string>) {
    && (forall g, k :: g in s.nonceCaches && k in s.nonceCaches[g] ==> ClaimBehind(s.claims, g.namespace, agents, k))
    && (forall g, k :: g in s.proposalCaches && k in s.proposalCaches[g] ==> ProposalClaim(g.namespace, k) in s.claims)
  }

  lemma AfterSound(s: State, a: Attempt, caps: Caps, agents: set<string>)
    requires CachesSound(s, agents) && (a.TryNonce? ==> a.agent in agents)
    ensures CachesSound(After(s, a, caps), agents)
  {
    var s' := After(s, a, caps);
    RememberedOnlyAdds(CacheFor(s, a), KeyOf(a), CapOf(caps, a));
    forall g, k | g in s'.nonceCaches && k in s'.nonceCaches[g]
      ensures ClaimBehind(s'.claims, g.namespace, agents, k)
    {
      if g in s.nonceCaches && k in s.nonceCaches[g] {
        var agent, nonce :| agent in agents && k == CacheKey(agent, nonce) && NonceClaim(g.namespace, agent, nonce) in s.claims;
        assert NonceClaim(g.namespace, agent, nonce) in s'.claims;
      } else {
        assert k == KeyOf(a) && ClaimOf(a) in s'.claims;
      }
    }
  }

  /** No governor remembers any nonce. */
  ghost predicate NoNonceTables(caps: Configured) {
    forall g :: caps(g).nonces == 0
  }

  ghost predicate NonceTablesEmpty(s: State) {
    forall g :: g in s.nonceCaches ==> s.nonceCaches[g] == []
  }

  /** A cached key is a durable claim: there are no cached nonces, or agent ids cannot be confused. */
  ghost predicate HitsAreClaims(s: State, agents: set<string>) {
    CachesSound(s, agents) && (PrefixFree(agents) || NonceTablesEmpty(s))
  }

  lemma HitMeansClaimed(s: State, a: Attempt, agents: set<string>)
    requires HitsAreClaims(s, agents) && (a.TryNonce? ==> a.agent in agents)
    ensures KeyOf(a) in CacheFor(s, a) ==> ClaimOf(a) in s.claims
  {
    if a.TryNonce? && KeyOf(a) in CacheFor(s, a) {
      assert ClaimBehind(s.claims, a.gov.namespace, agents, KeyOf(a));
      var agent, nonce :| agent in agents && KeyOf(a) == CacheKey(agent, nonce)
                          && NonceClaim(a.gov.namespace, agent, nonce) in s.claims;
      KeysCollideOnlyByExtension(a.agent, a.nonce, agent, nonce);
    }
  }

  lemma {:induction false} SameClaims(attempts: seq<Attempt>, caps: Configured, agents: set<string>)
    requires PrefixFree(agents) || NoNonceTables(caps)
    requires FromAgents(attempts, agents)
    ensures HitsAreClaims(Run(EMPTY, attempts, caps), agents)
    ensures NoNonceTables(caps) ==> NonceTablesEmpty(Run(EMPTY, attempts, caps))
    ensures Run(EMPTY, attempts, caps).claims == BareRun(attempts)
  {
    if attempts != [] {
      var n := |attempts| - 1;
      SameClaims(attempts[..n], caps, agents);
      var s := Run(EMPTY, attempts[..n], caps);
      HitMeansClaimed(s, attempts[n], agents);
      AfterSound(s, attempts[n], caps(attempts[n].gov), agents);
    }
  }

  lemma CacheInvisible(attempts: seq<Attempt>, caps: Configured, agents: set<string>, i: nat)
    requires PrefixFree(agents) || NoNonceTables(caps)
    requires FromAgents(attempts, agents) && i < |attempts|
    ensures GrantedAt(attempts, caps, i) == BareGranted(BareRun(attempts[..i]), attempts[i])
  {
    SameClaims(attempts[..i], caps, agents);
    HitMeansClaimed(Run(EMPTY, attempts[..i], caps), attempts[i], agents);
  }

  /** The cached governors decide every attempt of every run exactly as the bare claim set would. */
  ghost predicate Transparent(agents: set<string>, caps: Configured) {
    forall attempts, i :: FromAgents(attempts, agents) && 0 <= i < |attempts| ==>
      GrantedAt(attempts, caps, i) == BareGranted(BareRun(attempts[..i]), attempts[i])
  }

  /** The caches are invisible exactly when no agent id extends another by a colon, or no governor caches nonces. */
  lemma TransparentExactly(agents: set<string>, caps: Configured)
    ensures Transparent(agents, caps) <==> PrefixFree(agents) || NoNonceTables(caps)
  {
    if PrefixFree(agents) || NoNonceTables(caps) {
      forall attempts, i | FromAgents(attempts, agents) && 0 <= i < |attempts|
        ensures GrantedAt(attempts, caps, i) == BareGranted(BareRun(attempts[..i]), attempts[i])
      {
        CacheInvisible(attempts, caps, agents, i);
      }
    } else {
      var a, b :| a in agents && b in agents && Extends(b, a);
      var g :| caps(g).nonces > 0;
      var attempts := FalseHit(a, b, g, caps, agents);
    }
  }

  /** Agent `b`'s nonce "0" blocks an unused nonce of agent `a` at governor `g`. */
  lemma FalseHit(a: string, b: string, g: Governor, caps: Configured, agents: set<string>) returns (attempts: seq<Attempt>)
    requires caps(g).nonces > 0 && a in agents && b in agents && Extends(b, a)
    ensures FromAgents(attempts, agents) && |attempts| == 2
    ensures !GrantedAt(attempts, caps, 1) && BareGranted(BareRun(attempts[..1]), attempts[1])
  {
    var rest := b[|a| + 1..] + ":0";
    var first, second := TryNonce(g, b, "0", true), TryNonce(g, a, rest, true);
    attempts := [first, second];
    assert CacheKey(b, "0") == CacheKey(a, rest);
    assert attempts[..1] == [first] && [first][..0] == [];
    assert Run(EMPTY, [], caps) == EMPTY && BareRun([]) == {};
    assert Run(EMPTY, [first], caps) == After(EMPTY, first, caps(g));
    var key := KeyOf(first);
    assert Without([], key) + [key] == [key];
    assert CacheFor(After(EMPTY, first, caps(g)), second) == Remembered([], key, caps(g).nonces) == [key];
  }

  // ---- without a store ----

  predicate Fresh(seen: seq<string>, key: string) {
    key !in seen
  }

  /** The table after each key of `keys` was submitted in turn. */
  function Table(keys: seq<string>, cap: nat): seq<string> {
    if keys == [] then []
    else
      var n := |keys| - 1;
      var seen := Table(keys[..n], cap);
      if Fresh(seen, keys[n]) then Remembered(seen, keys[n], cap) else seen
  }

  /** The keys of `keys` that were accepted, in order. */
  function Accepted(keys: seq<string>, cap: nat): seq<string> {
    if keys == [] then []
    else
      var n := |keys| - 1;
      if Fresh(Table(keys[..n], cap), keys[n]) then Accepted(keys[..n], cap) + [keys[n]] else Accepted(keys[..n], cap)
  }

  /** The table is exactly the last `cap` accepted keys. */
  lemma {:induction false} TableIsLastAccepted(keys: seq<string>, cap: nat)
    ensures Table(keys, cap) == LastOf(Accepted(keys, cap), cap)
  {
    if keys != [] {
      var n := |keys| - 1;
      TableIsLastAccepted(keys[..n], cap);
      var seen := Table(keys[..n], cap);
      if Fresh(seen, keys[n]) {
        WithoutAbsent(seen, keys[n]);
      }
    }
  }

  /** Any `cap + 1` consecutive accepted keys differ: a key comes back only after `cap` others were accepted. */
  lemma {:induction false} ReacceptanceIsFarApart(keys: seq<string>, cap: nat, i: nat, j: nat)
    requires i < j < |Accepted(keys, cap)| && Accepted(keys, cap)[i] == Accepted(keys, cap)[j]
    ensures j - i > cap
    decreases |keys|
  {
    var n := |keys| - 1;
    var earlier := Accepted(keys[..n], cap);
    if j < |earlier| {
      ReacceptanceIsFarApart(keys[..n], cap, i, j);
    } else {
      if j - i <= cap {
        RecentIsKept(earlier, cap, i);
      }
      TableIsLastAccepted(keys[..n], cap);
    }
  }

  lemma RecentIsKept(accepted: seq<string>, cap: nat, i: nat)
    requires i < |accepted| && |accepted| - i <= cap
    ensures accepted[i] in LastOf(accepted, cap)
  {}

  // ---- the objects ----

  datatype Verdict = Claimed | NonceReplayed | DuplicateProposal | StoreUnavailable

  /** Why an attempt that is not granted is denied. A cached key needs no answer from the store. */
  function Denial(s: State, a: Attempt): Verdict {
    if KeyOf(a) !in CacheFor(s, a) && !a.up then StoreUnavailable
    else if a.TryNonce? then NonceReplayed
    else DuplicateProposal
  }

  class ClaimStore {
    var claims: set<Claim>

    constructor ()
      ensures claims == {}
    {
      claims := {};
    }

    /** A single insert: a conflict is the replay signal. */
    method Insert(c: Claim) returns (inserted: bool)
      modifies this
      ensures inserted == (c !in old(claims)) && claims == old(claims) + {c}
    {
      inserted := c !in claims;
      claims := claims + {c};
    }
  }

  class ReplayGuard {
    const store: ClaimStore?
    const gov: Governor
    const caps: Caps
    const dedupeProposalIds: bool
    var seenNonces: seq<string>
    var seenProposalIds: seq<string>

    constructor (store: ClaimStore?, gov: Governor, caps: Caps, dedupeProposalIds: bool)
      ensures this.store == store && this.gov == gov && this.caps == caps
      ensures this.dedupeProposalIds == dedupeProposalIds
      ensures seenNonces == [] && seenProposalIds == []
    {
      this.store, this.gov, this.caps := store, gov, caps;
      this.dedupeProposalIds := dedupeProposalIds;
      seenNonces, seenProposalIds := [], [];
    }

    static method Drop(table: seq<string>, key: string) returns (r: seq<string>)
      ensures r == Without(table, key)
    {
      r := [];
      for i := 0 to |table|
        invariant r + Without(table[i..], key) == Without(table, key)
      {
        assert table[i..][1..] == table[i + 1..] && table[i..][0] == table[i];
        if table[i] != key {
          assert r + ([table[i]] + Without(table[i + 1..], key)) == (r + [table[i]]) + Without(table[i + 1..], key);
          r := r + [table[i]];
        }
      }
    }

    static method Evict(table: seq<string>, cap: nat) returns (r: seq<string>)
      ensures r == LastOf(table, cap)
    {
      r := table;
      while |r| > cap
        invariant |r| <= |table| && (|r| >= cap || r == table)
        invariant r == table[|table| - |r|..]
      {
        assert r[1..] == table[|table| - |r| + 1..];
        r := r[1..];
      }
    }

    static method Remember(table: seq<string>, key: string, cap: nat) returns (r: seq<string>)
      ensures r == Remembered(table, key, cap)
    {
      var others := Drop(table, key);
      r := Evict(others + [key], cap);
    }

    ghost function View(): State
      requires store != null
      reads this, store
    {
      State(store.claims, map[gov := seenNonces], map[gov := seenProposalIds])
    }

    /** The durable path: first the nonce, if there is one, then the proposal id, if ids are deduplicated. */
    method ClaimDurably(agent: string, nonce: string, proposalId: string, nonceUp: bool, proposalUp: bool) returns (v: Verdict)
      requires store != null
      modifies this, store
      ensures
        var s0 := old(View());
        var a1 := TryNonce(gov, agent, nonce, nonceUp);
        var s1 := if nonce == "" then s0 else After(s0, a1, caps);
        var a2 := TryProposal(gov, proposalId, proposalUp);
        if nonce != "" && !Granted(s0, a1) then v == Denial(s0, a1) && View() == s0
        else if dedupeProposalIds && !Granted(s1, a2) then v == Denial(s1, a2) && View() == s1
        else v == Claimed && View() == if dedupeProposalIds then After(s1, a2, caps) else s1
      ensures v == NonceReplayed ==>
                nonce != "" && (agent + ":" + nonce in old(seenNonces) || NonceClaim(gov.namespace, agent, nonce) in old(store.claims))
      ensures v == DuplicateProposal ==>
                dedupeProposalIds && (proposalId in old(seenProposalIds) || ProposalClaim(gov.namespace, proposalId) in old(store.claims))
      ensures v == StoreUnavailable ==> (nonce != "" && !nonceUp) || (dedupeProposalIds && !proposalUp)
      ensures v == Claimed ==>
                store.claims == old(store.claims)
                                + (if nonce != "" then {NonceClaim(gov.namespace, agent, nonce)} else {})
                                + (if dedupeProposalIds then {ProposalClaim(gov.namespace, proposalId)} else {})
    {
      if nonce != "" {
        var key := CacheKey(agent, nonce);
        if key in seenNonces {
          return NonceReplayed;
        }
        if !nonceUp {
          return StoreUnavailable;
        }
        ghost var before := store.claims;
        var inserted := store.Insert(NonceClaim(gov.namespace, agent, nonce));
        if !inserted {
          assert store.claims == before;
          return NonceReplayed;
        }
        seenNonces := Remember(seenNonces, key, caps.nonces);
      }
      if dedupeProposalIds {
        if proposalId in seenProposalIds {
          return DuplicateProposal;
        }
        if !proposalUp {
          return StoreUnavailable;
        }
        ghost var before := store.claims;
        var inserted := store.Insert(ProposalClaim(gov.namespace, proposalId));
        if !inserted {
          assert store.claims == before;
          return DuplicateProposal;
        }
        seenProposalIds := Remember(seenProposalIds, proposalId, caps.proposals);
      }
      return Claimed;
    }

    /** Without a store the tables are both the check and the record; ids were checked earlier in the pipeline. */
    method ClaimInMemory(agent: string, nonce: string, proposalId: string) returns (v: Verdict)
      modifies this
      ensures v == NonceReplayed <==> nonce != "" && !Fresh(old(seenNonces), CacheKey(agent, nonce))
      ensures v == NonceReplayed || v == Claimed
      ensures v == NonceReplayed ==> seenNonces == old(seenNonces) && seenProposalIds == old(seenProposalIds)
      ensures v == Claimed ==>
                && seenNonces == (if nonce == "" then old(seenNonces)
                                  else Remembered(old(seenNonces), CacheKey(agent, nonce), caps.nonces))
                && seenProposalIds == (if dedupeProposalIds then Remembered(old(seenProposalIds), proposalId, caps.proposals)
                                       else old(seenProposalIds))
    {
      if nonce != "" {
        var key := CacheKey(agent, nonce);
        if key in seenNonces {
          return NonceReplayed;
        }
        seenNonces := Remember(seenNonces, key, caps.nonces);
      }
      if dedupeProposalIds {
        seenProposalIds := Remember(seenProposalIds, proposalId, caps.proposals);
      }
      return Claimed;
    }
  }
}
