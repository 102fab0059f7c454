/** The durable tables of live authority and step counters, and the seeding a governor does when it starts. */
module AuthorityStore {
  import opened Prelude
  import opened Permissions
  import opened Fleet

  /** No two permissions of a published list would land on the same row. */
  ghost predicate DistinctRows(ps: seq<Permission>) {
    forall i, j :: 0 <= i < j < |ps| ==> KeyOfPermission(ps[i]) != KeyOfPermission(ps[j])
  }

  function BudgetsOf(ps: seq<Permission>): map<RowKey, Option<nat>> {
    if ps == [] then map[]
    else BudgetsOf(ps[..|ps| - 1])[KeyOfPermission(ps[|ps| - 1]) := ps[|ps| - 1].maxBudget]
  }

  lemma PublishedMember(budgets: map<RowKey, Option<nat>>, q: Permission)
    ensures q in PermissionsOf(Published(budgets)) <==>
              KeyOfPermission(q) in budgets && budgets[KeyOfPermission(q)] == q.maxBudget
  {}

  /** A published list is read back as exactly the permissions it was made of, each with its whole budget. */
  lemma {:induction false} PublishedReadsBack(ps: seq<Permission>, q: Permission)
    requires DistinctRows(ps)
    ensures q in PermissionsOf(Published(BudgetsOf(ps))) <==> q in ps
    decreases |ps|
  {
    PublishedMember(BudgetsOf(ps), q);
    if ps != [] {
      var n := |ps| - 1;
      PublishedReadsBack(ps[..n], q);
      PublishedMember(BudgetsOf(ps[..n]), q);
      assert q in ps <==> q in ps[..n] || q == ps[n];
      if q in ps[..n] {
        var i :| 0 <= i < n && ps[i] == q;
        assert KeyOfPermission(ps[i]) != KeyOfPermission(ps[n]);
      }
    }
  }

  /** Seeding one agent, as the fleet's step does it. */
  function SeedOne(st: Store, a: AgentId, permissions: seq<Permission>): Store {
    if a in st.initialized then st
    else st.(initialized := st.initialized + {a}, rows := st.rows[a := Published(BudgetsOf(permissions))])
  }

  /** `after` is `before` with every agent of `agents` that was never seen given its ceiling, and no other touched. */
  ghost predicate IsSeeded(before: Store, after: Store, agents: set<AgentId>, ceilings: map<AgentId, seq<Permission>>) {
    && after.initialized == before.initialized + agents
    && after.claims == before.claims && after.counters == before.counters && after.restricted == before.restricted
    && (forall a :: a !in agents || a in before.initialized ==> RowsOf(after, a) == RowsOf(before, a))
    && (forall a :: a in agents && a !in before.initialized && a in ceilings ==>
          RowsOf(after, a) == Published(BudgetsOf(ceilings[a])))
  }

  lemma SeedOneMore(before: Store, after: Store, agents: set<AgentId>, ceilings: map<AgentId, seq<Permission>>, a: AgentId)
    requires IsSeeded(before, after, agents, ceilings) && a in ceilings && a !in agents
    ensures IsSeeded(before, SeedOne(after, a, ceilings[a]), agents + {a}, ceilings)
  {}

  class SQLiteAuthority {
    var initialized: set<AgentId>
    var rows: map<AgentId, Rows>
    var counters: map<string, nat>

    /** The authority part of the store the fleet shares. */
    ghost function View(claims: set<Replay.Claim>, restricted: map<AgentId, set<Restriction>>): Store
      reads this
    {
      Store(claims, counters, initialized, rows, restricted)
    }

    constructor ()
      ensures View({}, map[]) == EMPTY.store
    {
      initialized, rows, counters := {}, map[], map[];
    }

    /** Inserts one row per permission; the transaction commits them together. */
    method InsertRows(agent: AgentId, permissions: seq<Permission>)
      requires DistinctRows(permissions)
      modifies this`rows
      ensures rows == old(rows)[agent := Published(BudgetsOf(permissions))]
    {
      var inserted: Rows := map[];
      for i := 0 to |permissions|
        invariant inserted == Published(BudgetsOf(permissions[..i]))
        invariant rows == old(rows)
      {
        assert permissions[..i + 1][..i] == permissions[..i];
        var p := permissions[i];
        inserted := inserted[KeyOfPermission(p) := Row(p.maxBudget, if p.maxBudget.Some? then p.maxBudget.value else 0)];
      }
      assert permissions[..|permissions|] == permissions;
      rows := rows[agent := inserted];
    }

    /** Seeds an agent once; a later call changes nothing. */
    method InitializeAgentAuthority(agent: AgentId, permissions: seq<Permission>) returns (seeded: bool)
      requires DistinctRows(permissions)
      modifies this
      ensures seeded == (agent !in old(initialized))
      ensures forall claims, restricted ::
                View(claims, restricted) == SeedOne(old(View(claims, restricted)), agent, permissions)
    {
      if agent in initialized {
        return false;
      }
      initialized := initialized + {agent};
      InsertRows(agent, permissions);
      return true;
    }

    /** Delegation and revocation: the agent's rows are replaced as a whole and it counts as initialised. */
    method ReplaceLiveAuthority(agent: AgentId, permissions: seq<Permission>)
      requires DistinctRows(permissions)
      modifies this
      ensures forall claims, restricted :: View(claims, restricted)
                == Publishing(World(old(View(claims, restricted)), map[], [], 0), agent, BudgetsOf(permissions)).store
    {
      initialized := initialized + {agent};
      InsertRows(agent, permissions);
    }

    /** One conditional update: true when the row is unlimited or had `amount` left. */
    method ConsumePermissionBudget(agent: AgentId, name: string, scope: string, amount: nat) returns (ok: bool)
      modifies this`rows
      ensures
        var k, before, after := RowKey(name, scope), RowsOf(old(View({}, map[])), agent), RowsOf(View({}, map[]), agent);
        && ok == (k in before && (before[k].maxBudget.Some? ==> before[k].remaining >= amount))
        && (ok && before[k].maxBudget.Some? ==> rows == old(rows)[agent := before[k := before[k].(remaining := before[k].remaining - amount)]])
        && (!ok || before[k].maxBudget.None? ==> rows == old(rows))
        && (amount == 1 ==> ok == CanSpend(before, k) && (ok ==> after == Spent(before, k)))
    {
      var k := RowKey(name, scope);
      if agent !in rows || k !in rows[agent] {
        return false;
      }
      var row := rows[agent][k];
      if row.maxBudget.None? {
        return true;
      }
      if row.remaining < amount {
        return false;
      }
      rows := rows[agent := rows[agent][k := row.(remaining := row.remaining - amount)]];
      return true;
    }

    /** The count a call observes is the one its own increment produced. */
    method IncrementStepCounter(scope: string, maxAllowed: Option<nat>) returns (count: nat, within: bool)
      modifies this`counters
      ensures count == Count(old(View({}, map[])), scope) && counters == old(counters)[scope := count]
      ensures within == (maxAllowed.None? || count <= maxAllowed.value)
    {
      count := if scope in counters then counters[scope] + 1 else 1;
      counters := counters[scope := count];
      within := maxAllowed.None? || count <= maxAllowed.value;
    }

    method PeekStepCounter(scope: string) returns (count: nat)
      ensures count == if scope in counters then counters[scope] else 0
    {
      count := if scope in counters then counters[scope] else 0;
    }

    /** What a governor does for each agent of its envelope when it starts. */
    method SeedFromEnvelope(ceilings: map<AgentId, seq<Permission>>)
      requires forall a :: a in ceilings ==> DistinctRows(ceilings[a])
      modifies this
      ensures IsSeeded(old(View({}, map[])), View({}, map[]), ceilings.Keys, ceilings)
    {
      var todo := ceilings.Keys;
      while todo != {}
        invariant todo <= ceilings.Keys
        invariant IsSeeded(old(View({}, map[])), View({}, map[]), ceilings.Keys - todo, ceilings)
        decreases |todo|
      {
        var a :| a in todo;
        ghost var done := ceilings.Keys - todo;
        todo := todo - {a};
        assert ceilings.Keys - todo == done + {a};
        SeedOneMore(old(View({}, map[])), View({}, map[]), done, ceilings, a);
        var _ := InitializeAgentAuthority(a, ceilings[a]);
      }
      assert ceilings.Keys - todo == ceilings.Keys;
    }
  }

  /** Seeding an agent is the fleet's `Initialize` step. */
  lemma SeedOneIsAStep(w: World, a: AgentId, permissions: seq<Permission>)
    ensures Step(w, Initialize(a, BudgetsOf(permissions))).store == SeedOne(w.store, a, permissions)
  {}
}
