/**
 Durable restrictions: a table updated in place, an append-only ledger of every
 transition, and the cross-check between the two on each read.
 */
module RestrictionStore {
  import opened Prelude
  import opened Permissions
  import Chain
  import Ledger
  import Restrictions

  type Id = string

  datatype Status = ACTIVE | EXPIRED | CLEARED

  datatype Event = Imposed | Expired | Cleared

  /** What a restriction is about; none of it ever changes once imposed. */
  datatype Terms = Terms(namespace: string, agent: string, permission: Permission, expiry: Restrictions.Expiry)

  /** The two kinds of authenticated content: a table row, and a ledger entry. */
  datatype Sealed =
    | RowSeal(id: Id, terms: Terms, status: Status)
    | StepSeal(id: Id, terms: Terms, event: Event)

  type Mac = Chain.Digest<Sealed>

  datatype Row = Row(terms: Terms, status: Status, mac: Option<Mac>, keyId: Option<Ledger.KeyId>)

  type Table = map<Id, Row>
  type Steps = seq<Ledger.Row<Sealed>>

  datatype State = State(table: Table, ledger: Steps)

  /** The keys of the provider, and the one new codes are made with. */
  datatype Signing = Signing(keys: Ledger.Keys, current: Ledger.KeyId)

  ghost predicate CanSign(s: Signing) {
    s.current in s.keys
  }

  function EventOf(s: Status): Event {
    match s
    case ACTIVE => Imposed
    case EXPIRED => Expired
    case CLEARED => Cleared
  }

  // ---- the write operations as functions of the state ----

  function SealedRow(s: Option<Signing>, id: Id, terms: Terms, status: Status): Row
    requires s.Some? ==> s.value.current in s.value.keys
  {
    if s.None? then Row(terms, status, None, None)
    else Row(terms, status,
             Some(Chain.Seal(s.value.keys[s.value.current], Chain.Genesis, RowSeal(id, terms, status))),
             Some(s.value.current))
  }

  /** The ledger cannot be extended when its last entry carries no code. */
  predicate CanRecord(s: Option<Signing>, ledger: Steps) {
    s.Some? ==> Ledger.TipMac(ledger).Some?
  }

  /** One row written and, when rows are authenticated, one entry chained onto the ledger. */
  function Write(s: Option<Signing>, st: State, id: Id, terms: Terms, status: Status): State
    requires s.Some? ==> s.value.current in s.value.keys
    requires CanRecord(s, st.ledger)
  {
    State(
      st.table[id := SealedRow(s, id, terms, status)],
      if s.None? then st.ledger
      else Ledger.Appended(s.value.keys, s.value.current, st.ledger, StepSeal(id, terms, EventOf(status))))
  }

  predicate IsActiveFor(st: State, namespace: string, agent: string, id: Id) {
    && id in st.table
    && st.table[id].status == ACTIVE
    && st.table[id].terms.namespace == namespace
    && st.table[id].terms.agent == agent
  }

  datatype Op =
    | Impose(id: Id, terms: Terms)
    | MarkExpired(namespace: string, agent: string, id: Id)
    | Clear(namespace: string, agent: string, id: Id)
    | Rotate(keyId: Ledger.KeyId, key: Chain.Key)

  function Apply(s: Option<Signing>, st: State, op: Op): State
    requires s.Some? ==> s.value.current in s.value.keys
    requires CanRecord(s, st.ledger)
  {
    match op
    case Impose(id, terms) =>
      if id in st.table then st else Write(s, st, id, terms, ACTIVE)
    case MarkExpired(namespace, agent, id) =>
      if IsActiveFor(st, namespace, agent, id) then Write(s, st, id, st.table[id].terms, EXPIRED) else st
    case Clear(namespace, agent, id) =>
      if IsActiveFor(st, namespace, agent, id) then Write(s, st, id, st.table[id].terms, CLEARED) else st
    case Rotate(_, _) => st
  }

  function Rotated(s: Signing, op: Op): Signing {
    if op.Rotate? then Signing(s.keys[op.keyId := op.key], op.keyId) else s
  }

  // ---- the authenticated read ----

  predicate RowVerifies(keys: Ledger.Keys, id: Id, row: Row) {
    Ledger.MacVerifies(keys, row.mac, row.keyId, Chain.Genesis, RowSeal(id, row.terms, row.status))
  }

  function ActiveIds(table: Table, namespace: string, agent: string): set<Id> {
    set id | id in table && table[id].status == ACTIVE
             && table[id].terms.namespace == namespace && table[id].terms.agent == agent
  }

  function ActiveRows(table: Table, namespace: string, agent: string): (rows: map<Id, Terms>) {
    map id | id in ActiveIds(table, namespace, agent) :: table[id].terms
  }

  predicate Concerns(e: Ledger.Row<Sealed>, namespace: string, agent: string, id: Id) {
    && e.content.StepSeal?
    && e.content.id == id
    && e.content.terms.namespace == namespace
    && e.content.terms.agent == agent
  }

  /** The last ledger entry about a restriction of one agent. */
  function Latest(ledger: Steps, namespace: string, agent: string, id: Id): (e: Option<Ledger.Row<Sealed>>)
    ensures e.Some? ==> e.value in ledger && Concerns(e.value, namespace, agent, id)
    ensures e.None? ==> forall x :: x in ledger ==> !Concerns(x, namespace, agent, id)
  {
    if ledger == [] then None
    else
      var n := |ledger| - 1;
      if Concerns(ledger[n], namespace, agent, id) then Some(ledger[n])
      else Latest(ledger[..n], namespace, agent, id)
  }

  /** Every restriction of one agent the ledger has ever mentioned. */
  function RecordedIds(ledger: Steps, namespace: string, agent: string): set<Id> {
    set i | 0 <= i < |ledger| && Concerns(ledger[i], namespace, agent, ledger[i].content.id) :: ledger[i].content.id
  }

  lemma LatestIsRecorded(ledger: Steps, namespace: string, agent: string, id: Id)
    ensures Latest(ledger, namespace, agent, id).Some? ==> id in RecordedIds(ledger, namespace, agent)
  {}

  predicate EntryVerifies(keys: Ledger.Keys, e: Ledger.Row<Sealed>) {
    Ledger.MacVerifies(keys, e.mac, e.keyId, e.prevMac, e.content)
  }

  /** What the cross-check demands of one ledger entry's restriction. */
  predicate LatestAgrees(keys: Ledger.Keys, ledger: Steps, namespace: string, agent: string, id: Id, active: set<Id>) {
    var e := Latest(ledger, namespace, agent, id);
    e.Some? ==> EntryVerifies(keys, e.value) && (e.value.content.event == Imposed ==> id in active)
  }

  ghost predicate CrossChecks(keys: Ledger.Keys, ledger: Steps, namespace: string, agent: string, active: set<Id>) {
    forall id :: LatestAgrees(keys, ledger, namespace, agent, id, active)
  }

  /** The read neither raises on a row nor on the cross-check. */
  ghost predicate ReadSucceeds(keys: Ledger.Keys, table: Table, ledger: Steps, namespace: string, agent: string) {
    && (forall id :: id in ActiveIds(table, namespace, agent) ==> RowVerifies(keys, id, table[id]))
    && CrossChecks(keys, ledger, namespace, agent, ActiveIds(table, namespace, agent))
  }

  // ---- table and ledger agree in every state the operations reach ----

  ghost predicate Tracks(ledger: Steps, id: Id, row: Row) {
    var e := Latest(ledger, row.terms.namespace, row.terms.agent, id);
    e.Some? && e.value.content == StepSeal(id, row.terms, EventOf(row.status))
  }

  ghost predicate AllVerify(keys: Ledger.Keys, table: Table) {
    forall id :: id in table ==> RowVerifies(keys, id, table[id])
  }

  ghost predicate AllTrack(st: State) {
    forall id :: id in st.table ==> Tracks(st.ledger, id, st.table[id])
  }

  predicate HasRow(table: Table, content: Sealed) {
    content.StepSeal? && content.id in table && table[content.id].terms == content.terms
  }

  ghost predicate AllHaveRows(st: State) {
    forall i :: 0 <= i < |st.ledger| ==> HasRow(st.table, st.ledger[i].content)
  }

  ghost predicate Consistent(keys: Ledger.Keys, st: State) {
    && Ledger.Verified(keys, st.ledger)
    && AllVerify(keys, st.table)
    && AllTrack(st)
    && AllHaveRows(st)
  }

  lemma WriteTracks(s: Signing, st: State, id: Id, terms: Terms, status: Status)
    requires CanSign(s) && CanRecord(Some(s), st.ledger) && AllTrack(st)
    ensures AllTrack(Write(Some(s), st, id, terms, status))
  {}

  lemma WriteHasRows(s: Signing, st: State, id: Id, terms: Terms, status: Status)
    requires CanSign(s) && CanRecord(Some(s), st.ledger) && AllHaveRows(st)
    requires id in st.table ==> terms == st.table[id].terms
    ensures AllHaveRows(Write(Some(s), st, id, terms, status))
  {}

  lemma WriteVerifies(s: Signing, st: State, id: Id, terms: Terms, status: Status)
    requires CanSign(s) && CanRecord(Some(s), st.ledger) && AllVerify(s.keys, st.table)
    ensures AllVerify(s.keys, Write(Some(s), st, id, terms, status).table)
  {}

  lemma WriteConsistent(s: Signing, st: State, id: Id, terms: Terms, status: Status)
    requires CanSign(s) && Consistent(s.keys, st)
    requires id in st.table ==> terms == st.table[id].terms
    ensures CanRecord(Some(s), st.ledger) && Consistent(s.keys, Write(Some(s), st, id, terms, status))
  {
    Ledger.AppendStaysVerified(s.keys, s.current, st.ledger, StepSeal(id, terms, EventOf(status)));
    WriteVerifies(s, st, id, terms, status);
    WriteTracks(s, st, id, terms, status);
    WriteHasRows(s, st, id, terms, status);
  }

  /** A fresh key id keeps every stored code verifying. */
  lemma RotateConsistent(keys: Ledger.Keys, st: State, keyId: Ledger.KeyId, key: Chain.Key)
    requires Consistent(keys, st) && (keyId in keys ==> keys[keyId] == key)
    ensures Consistent(keys[keyId := key], st)
  {
    Ledger.RotationKeepsVerifyingExactly(keys, st.ledger, keyId, key);
  }

  lemma ApplyConsistent(s: Signing, st: State, op: Op)
    requires CanSign(s) && Consistent(s.keys, st)
    requires op.Rotate? ==> op.keyId in s.keys ==> s.keys[op.keyId] == op.key
    ensures CanRecord(Some(s), st.ledger) && Consistent(Rotated(s, op).keys, Apply(Some(s), st, op))
  {
    Ledger.TipOfVerified(s.keys, st.ledger);
    match op
    case Impose(id, terms) =>
      if id !in st.table {
        WriteConsistent(s, st, id, terms, ACTIVE);
      }
    case MarkExpired(namespace, agent, id) =>
      if IsActiveFor(st, namespace, agent, id) {
        WriteConsistent(s, st, id, st.table[id].terms, EXPIRED);
      }
    case Clear(namespace, agent, id) =>
      if IsActiveFor(st, namespace, agent, id) {
        WriteConsistent(s, st, id, st.table[id].terms, CLEARED);
      }
    case Rotate(keyId, key) =>
      RotateConsistent(s.keys, st, keyId, key);
  }

  /** A run of operations with a provider configured throughout, key rotations included. */
  ghost predicate IsRun(signings: seq<Signing>, states: seq<State>, ops: seq<Op>) {
    && |signings| == |states| == |ops| + 1
    && states[0] == State(map[], [])
    && CanSign(signings[0])
    && forall i :: 0 <= i < |ops| ==> IsStep(signings[i], states[i], ops[i], signings[i + 1], states[i + 1])
  }

  /** Operations keep what they are given; a rotation does not rebind a key id. */
  ghost predicate IsStep(s: Signing, st: State, op: Op, s': Signing, st': State) {
    && s' == Rotated(s, op)
    && (op.Rotate? ==> op.keyId in s.keys ==> s.keys[op.keyId] == op.key)
    && (CanSign(s) && CanRecord(Some(s), st.ledger) ==> st' == Apply(Some(s), st, op))
  }

  lemma {:induction false} RunConsistent(signings: seq<Signing>, states: seq<State>, ops: seq<Op>)
    requires IsRun(signings, states, ops)
    ensures CanSign(signings[|ops|]) && Consistent(signings[|ops|].keys, states[|ops|])
    decreases |ops|
  {
    if ops != [] {
      var n := |ops| - 1;
      RunConsistent(signings[..n + 1], states[..n + 1], ops[..n]);
      assert IsStep(signings[n], states[n], ops[n], signings[n + 1], states[n + 1]);
      ApplyConsistent(signings[n], states[n], ops[n]);
    }
  }

  /** Runs made of operations alone never trip a read, and the read returns exactly the active rows. */
  lemma RunsNeverTripTheRead(signings: seq<Signing>, states: seq<State>, ops: seq<Op>, namespace: string, agent: string)
    requires IsRun(signings, states, ops)
    ensures ReadSucceeds(signings[|ops|].keys, states[|ops|].table, states[|ops|].ledger, namespace, agent)
  {
    RunConsistent(signings, states, ops);
    ConsistentReadSucceeds(signings[|ops|].keys, states[|ops|], namespace, agent);
  }

  lemma ConsistentReadSucceeds(keys: Ledger.Keys, st: State, namespace: string, agent: string)
    requires Consistent(keys, st)
    ensures ReadSucceeds(keys, st.table, st.ledger, namespace, agent)
  {
    var active := ActiveIds(st.table, namespace, agent);
    forall id ensures LatestAgrees(keys, st.ledger, namespace, agent, id, active) {
      var e := Latest(st.ledger, namespace, agent, id);
      if e.Some? {
        var i :| 0 <= i < |st.ledger| && st.ledger[i] == e.value;
        Ledger.VerifiedRow(keys, st.ledger, i);
        assert HasRow(st.table, st.ledger[i].content);
        assert Tracks(st.ledger, id, st.table[id]);
      }
    }
  }

  /** The latest event of a restriction is an imposition exactly when its row is active. */
  lemma LatestEventIsStatus(keys: Ledger.Keys, st: State, id: Id)
    requires Consistent(keys, st) && id in st.table
    ensures
      var row := st.table[id];
      var e := Latest(st.ledger, row.terms.namespace, row.terms.agent, id);
      && e.Some?
      && (e.value.content.event == Imposed <==> row.status == ACTIVE)
      && (e.value.content.event == Expired <==> row.status == EXPIRED)
      && (e.value.content.event == Cleared <==> row.status == CLEARED)
  {}

  /** No row ever disappears or changes terms, and a row that is no longer active never changes again. */
  lemma {:induction false} TerminalIsForever(signings: seq<Signing>, states: seq<State>, ops: seq<Op>, i: nat, id: Id)
    requires IsRun(signings, states, ops) && i <= |ops| && id in states[i].table
    ensures id in states[|ops|].table && states[|ops|].table[id].terms == states[i].table[id].terms
    ensures states[i].table[id].status != ACTIVE ==> states[|ops|].table[id] == states[i].table[id]
    decreases |ops|
  {
    if i < |ops| {
      var n := |ops| - 1;
      TerminalIsForever(signings[..n + 1], states[..n + 1], ops[..n], i, id);
      RunConsistent(signings[..n + 1], states[..n + 1], ops[..n]);
      assert IsStep(signings[n], states[n], ops[n], signings[n + 1], states[n + 1]);
      ApplyConsistent(signings[n], states[n], ops[n]);
      ApplyKeepsTerminal(Some(signings[n]), states[n], ops[n], id);
    }
  }

  lemma ApplyKeepsTerminal(s: Option<Signing>, st: State, op: Op, id: Id)
    requires (s.Some? ==> CanSign(s.value)) && CanRecord(s, st.ledger) && id in st.table
    ensures id in Apply(s, st, op).table && Apply(s, st, op).table[id].terms == st.table[id].terms
    ensures st.table[id].status != ACTIVE ==> Apply(s, st, op).table[id] == st.table[id]
  {}

  // ---- the life of one restriction ----

  /** The table with one restriction at a status, every other row as before. */
  ghost predicate OnlyRowSet(before: Table, after: Table, id: Id, terms: Terms, status: Status) {
    && after.Keys == before.Keys + {id}
    && after[id].terms == terms && after[id].status == status
    && forall other :: other in before && other != id ==> after[other] == before[other]
  }

  /** The operation expires or clears `id` under the namespace and agent it was imposed for. */
  predicate Ends(op: Op, id: Id, terms: Terms) {
    (op.MarkExpired? || op.Clear?) && op.id == id && op.namespace == terms.namespace && op.agent == terms.agent
  }

  lemma StepOf(signings: seq<Signing>, states: seq<State>, ops: seq<Op>, k: nat)
    requires IsRun(signings, states, ops) && k < |ops|
    ensures CanSign(signings[k]) && CanRecord(Some(signings[k]), states[k].ledger)
    ensures states[k + 1] == Apply(Some(signings[k]), states[k], ops[k])
  {
    RunPrefixConsistent(signings, states, ops, k);
    assert IsStep(signings[k], states[k], ops[k], signings[k + 1], states[k + 1]);
    Ledger.TipOfVerified(signings[k].keys, states[k].ledger);
  }

  lemma RunPrefixConsistent(signings: seq<Signing>, states: seq<State>, ops: seq<Op>, k: nat)
    requires IsRun(signings, states, ops) && k <= |ops|
    ensures CanSign(signings[k]) && Consistent(signings[k].keys, states[k])
  {
    assert IsRun(signings[..k + 1], states[..k + 1], ops[..k]) by {
      forall i | 0 <= i < k ensures IsStep(signings[i], states[i], ops[i], signings[i + 1], states[i + 1]) {}
    }
    RunConsistent(signings[..k + 1], states[..k + 1], ops[..k]);
  }

  /** A fresh imposition makes the restriction active with its terms, and changes no other row. */
  lemma ImposedIsActive(signings: seq<Signing>, states: seq<State>, ops: seq<Op>, k: nat, id: Id, terms: Terms)
    requires IsRun(signings, states, ops) && k < |ops| && ops[k] == Op.Impose(id, terms) && id !in states[k].table
    ensures OnlyRowSet(states[k].table, states[k + 1].table, id, terms, ACTIVE)
  {
    StepOf(signings, states, ops, k);
  }

  /** An expiry or a clearing that names an active restriction ends it, as that and nothing else. */
  lemma EndedLeaves(signings: seq<Signing>, states: seq<State>, ops: seq<Op>, k: nat, id: Id, terms: Terms)
    requires IsRun(signings, states, ops) && k < |ops| && Ends(ops[k], id, terms)
    requires id in states[k].table && states[k].table[id].terms == terms && states[k].table[id].status == ACTIVE
    ensures OnlyRowSet(states[k].table, states[k + 1].table, id, terms, if ops[k].MarkExpired? then EXPIRED else CLEARED)
  {
    StepOf(signings, states, ops, k);
  }

  lemma UnendedStays(signings: seq<Signing>, states: seq<State>, ops: seq<Op>, k: nat, id: Id, terms: Terms)
    requires IsRun(signings, states, ops) && k < |ops| && !Ends(ops[k], id, terms)
    requires id in states[k].table && states[k].table[id].terms == terms && states[k].table[id].status == ACTIVE
    ensures id in states[k + 1].table && states[k + 1].table[id].terms == terms && states[k + 1].table[id].status == ACTIVE
  {
    StepOf(signings, states, ops, k);
  }

  /**
   Over any run, a restriction freshly imposed at step `i` is among the active
   rows of its agent, with its terms, in every later state up to the first
   expiry or clearing that names it, and no longer after that.
   */
  lemma ActiveUntilEnded(signings: seq<Signing>, states: seq<State>, ops: seq<Op>, i: nat, j: nat, id: Id, terms: Terms)
    requires IsRun(signings, states, ops) && i < j <= |ops|
    requires ops[i] == Op.Impose(id, terms) && id !in states[i].table
    requires forall k :: i < k < j ==> !Ends(ops[k], id, terms)
    ensures
      var rows := ActiveRows(states[j].table, terms.namespace, terms.agent);
      id in rows && rows[id] == terms
    ensures j < |ops| && Ends(ops[j], id, terms) ==>
              id !in ActiveRows(states[j + 1].table, terms.namespace, terms.agent)
  {
    ImposedIsActive(signings, states, ops, i, id, terms);
    for k := i + 1 to j
      invariant id in states[k].table && states[k].table[id].terms == terms && states[k].table[id].status == ACTIVE
    {
      UnendedStays(signings, states, ops, k, id, terms);
    }
    if j < |ops| && Ends(ops[j], id, terms) {
      EndedLeaves(signings, states, ops, j, id, terms);
    }
  }

  // ---- edits of the table alone ----

  /** Whatever the table was edited into, a read that does not raise still names every active restriction. */
  lemma EditedTableHidesNothing(keys: Ledger.Keys, st: State, edited: Table, namespace: string, agent: string, id: Id)
    requires Consistent(keys, st) && id in ActiveIds(st.table, namespace, agent)
    requires ReadSucceeds(keys, edited, st.ledger, namespace, agent)
    ensures id in ActiveIds(edited, namespace, agent)
  {
    assert Tracks(st.ledger, id, st.table[id]);
    assert LatestAgrees(keys, st.ledger, namespace, agent, id, ActiveIds(edited, namespace, agent));
  }

  /** A transition with these terms was once recorded. */
  ghost predicate WasRecorded(ledger: Steps, id: Id, terms: Terms, status: Status) {
    exists e :: e in ledger && e.content == StepSeal(id, terms, EventOf(status))
  }

  /** Every row code in the table that verifies was issued by an operation, which recorded the transition. */
  ghost predicate NoForgedRows(keys: Ledger.Keys, table: Table, ledger: Steps) {
    forall id :: id in table && RowVerifies(keys, id, table[id]) ==>
                   WasRecorded(ledger, id, table[id].terms, table[id].status)
  }

  lemma OwnRowsAreNotForged(keys: Ledger.Keys, st: State)
    requires Consistent(keys, st)
    ensures NoForgedRows(keys, st.table, st.ledger)
  {}

  /**
   An edit that cannot forge codes makes the read raise, or leaves every active
   restriction in the answer with its original terms and adds none that was
   never imposed.
   */
  lemma EditedTableCannotWeaken(keys: Ledger.Keys, st: State, edited: Table, namespace: string, agent: string)
    requires Consistent(keys, st) && NoForgedRows(keys, edited, st.ledger)
    requires ReadSucceeds(keys, edited, st.ledger, namespace, agent)
    ensures forall id :: id in ActiveRows(st.table, namespace, agent) ==>
              && id in ActiveRows(edited, namespace, agent)
              && ActiveRows(edited, namespace, agent)[id] == st.table[id].terms
    ensures forall id :: id in ActiveRows(edited, namespace, agent) ==>
              id in st.table && ActiveRows(edited, namespace, agent)[id] == st.table[id].terms
  {
    forall id | id in ActiveRows(edited, namespace, agent)
      ensures id in st.table && ActiveRows(edited, namespace, agent)[id] == st.table[id].terms
    {
      assert RowVerifies(keys, id, edited[id]);
      assert WasRecorded(st.ledger, id, edited[id].terms, ACTIVE);
      var i :| 0 <= i < |st.ledger| && st.ledger[i].content == StepSeal(id, edited[id].terms, Imposed);
      assert HasRow(st.table, st.ledger[i].content);
    }
    forall id | id in ActiveRows(st.table, namespace, agent) ensures id in ActiveRows(edited, namespace, agent) {
      EditedTableHidesNothing(keys, st, edited, namespace, agent, id);
    }
  }

  // ---- the store object ----

  datatype Failure =
    | DuplicateId
    | LedgerUnusable
    | RowTampered(id: Id)
    | LedgerTampered(id: Id)
    | StatusChanged(id: Id)

  datatype ClearOutcome = WasCleared | AlreadyCleared | NotFound | WrongAgent

  class SQLiteRestrictions {
    const provider: Ledger.InMemoryKeyProvider?
    var table: Table
    var ledger: Steps

    ghost predicate Valid()
      reads this, provider
    {
      provider != null ==> provider.Valid()
    }

    ghost function Now(): State
      reads this
    {
      State(table, ledger)
    }

    ghost function Signer(): (s: Option<Signing>)
      requires Valid()
      reads this, provider
      ensures s.Some? ==> CanSign(s.value)
    {
      if provider == null then None else Some(Signing(provider.keys, provider.currentId))
    }

    constructor (provider: Ledger.InMemoryKeyProvider?)
      requires provider != null ==> provider.Valid()
      ensures Valid() && this.provider == provider && Now() == State(map[], [])
    {
      this.provider, table, ledger := provider, map[], [];
    }

    /** Writes one row and its ledger entry; the caller has checked that the ledger can be extended. */
    method WriteRow(id: Id, terms: Terms, status: Status)
      requires Valid() && CanRecord(Signer(), ledger)
      modifies this
      ensures Valid() && Now() == Write(Signer(), old(Now()), id, terms, status)
    {
      if provider == null {
        table := table[id := Row(terms, status, None, None)];
        return;
      }
      var keyId, key := provider.Current();
      var rowMac := Chain.Seal(key, Chain.Genesis, RowSeal(id, terms, status));
      table := table[id := Row(terms, status, Some(rowMac), Some(keyId))];
      var prev: Mac := if ledger == [] then Chain.Genesis else ledger[|ledger| - 1].mac.value;
      var content := StepSeal(id, terms, EventOf(status));
      ledger := ledger + [Ledger.Row(prev, Some(Chain.Seal(key, prev, content)), Some(keyId), content)];
    }

    method LedgerUsable() returns (ok: bool)
      requires Valid()
      ensures ok == CanRecord(Signer(), ledger)
    {
      ok := provider == null || ledger == [] || ledger[|ledger| - 1].mac.Some?;
    }

    method Impose(id: Id, terms: Terms) returns (r: Result<Id, Failure>)
      requires Valid()
      modifies this
      ensures Valid()
      ensures r.Ok? <==> id !in old(table) && CanRecord(Signer(), old(ledger))
      ensures Now() == if r.Ok? then Apply(Signer(), old(Now()), Op.Impose(id, terms)) else old(Now())
      ensures r.Ok? ==> r.value == id && OnlyRowSet(old(table), table, id, terms, ACTIVE)
      ensures r.Ok? ==> id in ActiveIds(table, terms.namespace, terms.agent)
    {
      if id in table {
        return Err(DuplicateId);
      }
      var usable := LedgerUsable();
      if !usable {
        return Err(LedgerUnusable);
      }
      WriteRow(id, terms, ACTIVE);
      return Ok(id);
    }

    /** True exactly when this call performed the transition. */
    method MarkExpired(namespace: string, agent: string, id: Id) returns (r: Result<bool, Failure>)
      requires Valid()
      modifies this
      ensures Valid()
      ensures r.Ok? ==> r.value == IsActiveFor(old(Now()), namespace, agent, id)
      ensures r.Err? ==> !CanRecord(Signer(), old(ledger)) && Now() == old(Now())
      ensures r.Ok? && !r.value ==> Now() == old(Now())
      ensures r.Ok? && r.value ==>
                CanRecord(Signer(), old(ledger)) && Now() == Apply(Signer(), old(Now()), Op.MarkExpired(namespace, agent, id))
      ensures r.Ok? && r.value ==> id in old(table) && OnlyRowSet(old(table), table, id, old(table)[id].terms, EXPIRED)
    {
      if id !in table || table[id].status != ACTIVE
         || table[id].terms.namespace != namespace || table[id].terms.agent != agent {
        return Ok(false);
      }
      var usable := LedgerUsable();
      if !usable {
        return Err(LedgerUnusable);
      }
      WriteRow(id, table[id].terms, EXPIRED);
      return Ok(true);
    }

    /** Bound to one agent and one id; only an active row is ever cleared. */
    method ClearRestriction(namespace: string, agent: string, id: Id) returns (r: Result<ClearOutcome, Failure>)
      requires Valid()
      modifies this
      ensures Valid()
      ensures r == Ok(WasCleared) <==> IsActiveFor(old(Now()), namespace, agent, id) && CanRecord(Signer(), old(ledger))
      ensures r == Ok(WasCleared) ==> Now() == Apply(Signer(), old(Now()), Op.Clear(namespace, agent, id))
      ensures r == Ok(WasCleared) ==> id in old(table) && OnlyRowSet(old(table), table, id, old(table)[id].terms, CLEARED)
      ensures r != Ok(WasCleared) ==> Now() == old(Now())
      ensures r == Ok(AlreadyCleared) <==>
                id in old(table) && old(table)[id].terms.namespace == namespace
                && old(table)[id].terms.agent == agent && old(table)[id].status == CLEARED
      ensures r == Ok(WrongAgent) <==>
                id in old(table) && old(table)[id].terms.namespace == namespace && old(table)[id].terms.agent != agent
      ensures r == Ok(NotFound) <==>
                id !in old(table) || old(table)[id].terms.namespace != namespace
                || (old(table)[id].terms.agent == agent && old(table)[id].status == EXPIRED)
    {
      if id in table && table[id].status == ACTIVE
         && table[id].terms.namespace == namespace && table[id].terms.agent == agent {
        var usable := LedgerUsable();
        if !usable {
          return Err(LedgerUnusable);
        }
        WriteRow(id, table[id].terms, CLEARED);
        return Ok(WasCleared);
      }
      if id !in table || table[id].terms.namespace != namespace {
        return Ok(NotFound);
      }
      if table[id].terms.agent != agent {
        return Ok(WrongAgent);
      }
      if table[id].status == CLEARED {
        return Ok(AlreadyCleared);
      }
      return Ok(NotFound);
    }

    method ActiveRestrictions(namespace: string, agent: string) returns (r: Result<map<Id, Terms>, Failure>)
      requires Valid()
      ensures r.Ok? ==> r.value == ActiveRows(table, namespace, agent)
      ensures r.Ok? ==> forall id :: id in r.value <==>
                id in table && table[id].status == ACTIVE
                && table[id].terms.namespace == namespace && table[id].terms.agent == agent
      ensures provider == null ==> r.Ok?
      ensures provider != null ==> (r.Ok? <==> ReadSucceeds(provider.keys, table, ledger, namespace, agent))
    {
      var active := ActiveIds(table, namespace, agent);
      if provider != null {
        var tampered := FirstTamperedRow(active);
        if tampered.Some? {
          return Err(tampered.value);
        }
        var disagreement := CrossCheck(namespace, agent, active);
        if disagreement.Some? {
          return Err(disagreement.value);
        }
      }
      return Ok(ActiveRows(table, namespace, agent));
    }

    method FirstTamperedRow(ids: set<Id>) returns (f: Option<Failure>)
      requires Valid() && provider != null && ids <= table.Keys
      ensures f.None? <==> forall id :: id in ids ==> RowVerifies(provider.keys, id, table[id])
    {
      var todo := ids;
      while todo != {}
        invariant todo <= ids
        invariant forall id :: id in ids - todo ==> RowVerifies(provider.keys, id, table[id])
        decreases |todo|
      {
        var id :| id in todo;
        todo := todo - {id};
        if !RowVerifies(provider.keys, id, table[id]) {
          return Some(RowTampered(id));
        }
      }
      return None;
    }

    /** Looks at the latest ledger entry of every restriction the agent ever had. */
    method CrossCheck(namespace: string, agent: string, active: set<Id>) returns (f: Option<Failure>)
      requires Valid() && provider != null
      ensures f.None? <==> CrossChecks(provider.keys, ledger, namespace, agent, active)
    {
      var recorded := RecordedIds(ledger, namespace, agent);
      var todo := recorded;
      while todo != {}
        invariant todo <= recorded
        invariant forall id :: id in recorded - todo ==>
                    LatestAgrees(provider.keys, ledger, namespace, agent, id, active)
        decreases |todo|
      {
        var id :| id in todo;
        todo := todo - {id};
        var e := Latest(ledger, namespace, agent, id);
        if e.Some? {
          if !EntryVerifies(provider.keys, e.value) {
            assert !LatestAgrees(provider.keys, ledger, namespace, agent, id, active);
            return Some(LedgerTampered(id));
          }
          if e.value.content.event == Imposed && id !in active {
            assert !LatestAgrees(provider.keys, ledger, namespace, agent, id, active);
            return Some(StatusChanged(id));
          }
        }
      }
      forall id ensures LatestAgrees(provider.keys, ledger, namespace, agent, id, active) {
        LatestIsRecorded(ledger, namespace, agent, id);
        assert recorded - todo == recorded;
      }
      return None;
    }
  }
}
