/** The authority object a governor builds from durable rows, and how spending on either side corresponds. */
module DurableAuthority {
  import opened Prelude
  import opened Permissions
  import opened Authorities
  import opened Fleet

  function PermissionAt(rows: Rows, k: RowKey): Permission
    requires k in rows
  {
    Permission(k.name, k.scope, rows[k].maxBudget)
  }

  /** Row `k` is metered and its counter is stored under `key`, which other rows may share. */
  predicate AtKey(rows: Rows, k: RowKey, key: string) {
    k in rows && rows[k].maxBudget.Some? && Key(PermissionAt(rows, k)) == key
  }

  ghost predicate FromSomeRow(rows: Rows, key: string, v: int) {
    exists k :: AtKey(rows, k, key) && rows[k].remaining == v
  }

  /** `g` is a possible reading of `rows`: one counter for every key, from some row that has it. */
  ghost predicate IsReading(rows: Rows, g: Grants) {
    && g.permissions == PermissionsOf(rows)
    && (forall k :: k in rows && rows[k].maxBudget.Some? ==> Key(PermissionAt(rows, k)) in g.stored)
    && (forall key :: key in g.stored ==> FromSomeRow(rows, key, g.stored[key]))
  }

  /** Every metered row whose counter is stored under the key of `m` has a unit left, or none has. */
  ghost predicate SharedCountersAgree(rows: Rows, m: Permission) {
    m.maxBudget.Some? ==>
      forall k, j :: AtKey(rows, k, Key(m)) && AtKey(rows, j, Key(m)) ==> (rows[k].remaining >= 1 <==> rows[j].remaining >= 1)
  }

  /**
   The conditional update on the governing row succeeds exactly when the object
   read from the rows has a unit left, whichever row its counter came from, if
   and only if the rows that share its counter key are all used up or all not.
   */
  lemma SpendingAgreesExactly(rows: Rows, req: Permission, m: Permission)
    requires Match(PermissionsOf(rows), req) == Some(m)
    ensures SharedCountersAgree(rows, m)
       <==> forall g :: IsReading(rows, g) ==> (CanSpend(rows, KeyOfPermission(m)) <==> CanConsume(g, req, 1))
  {
    var own := KeyOfPermission(m);
    assert own in rows && PermissionAt(rows, own) == m;
    if SharedCountersAgree(rows, m) {
      forall g | IsReading(rows, g) ensures CanSpend(rows, own) <==> CanConsume(g, req, 1) {
        if m.maxBudget.Some? {
          assert AtKey(rows, own, Key(m));
          var k :| AtKey(rows, k, Key(m)) && g.stored[Key(m)] == rows[k].remaining;
        }
      }
    } else {
      var k, j :| AtKey(rows, k, Key(m)) && AtKey(rows, j, Key(m)) && rows[k].remaining >= 1 && rows[j].remaining < 1;
      var g := ReadingFrom(rows, if rows[own].remaining >= 1 then j else k);
    }
  }

  /** A reading whose loop visits row `k` after every other with the same counter key. */
  lemma ReadingFrom(rows: Rows, k: RowKey) returns (g: Grants)
    requires k in rows && rows[k].maxBudget.Some?
    ensures IsReading(rows, g) && Key(PermissionAt(rows, k)) in g.stored
    ensures g.stored[Key(PermissionAt(rows, k))] == rows[k].remaining
  {
    var keys := set j | j in rows && AtKey(rows, j, Key(PermissionAt(rows, j))) :: Key(PermissionAt(rows, j));
    var own := Key(PermissionAt(rows, k));
    var stored := map key | key in keys :: if key == own then rows[k].remaining else rows[SomeRow(rows, key)].remaining;
    g := Grants(PermissionsOf(rows), stored);
    forall key | key in stored ensures FromSomeRow(rows, key, stored[key]) {
      assert AtKey(rows, if key == own then k else SomeRow(rows, key), key);
    }
  }

  ghost function SomeRow(rows: Rows, key: string): (k: RowKey)
    requires exists j :: AtKey(rows, j, key)
    ensures AtKey(rows, k, key)
  {
    var k :| AtKey(rows, k, key);
    k
  }

  /** Colons in names make it fail: one reading says yes where the update says no. */
  lemma CollidingKeysDisagree() returns (g: Grants)
    ensures
      var empty, full := RowKey("a:b", "c"), RowKey("a", "b:c");
      var rows := map[empty := Row(Some(1), 0), full := Row(Some(1), 1)];
      && IsReading(rows, g)
      && !CanSpend(rows, empty) && CanConsume(g, Permission("a:b", "c", None), 1)
  {
    var empty, full := RowKey("a:b", "c"), RowKey("a", "b:c");
    var rows := map[empty := Row(Some(1), 0), full := Row(Some(1), 1)];
    var m, req := PermissionAt(rows, empty), Permission("a:b", "c", None);
    g := ReadingFrom(rows, full);
    SortsBeforeTotal(m, m);
    assert m in PermissionsOf(rows) && Key(m) == "a:b:c" == Key(PermissionAt(rows, full));
    MatchIs(PermissionsOf(rows), req, m);
  }

  /**
   Any other counter the object may have read under the key of `m` has, one
   unit below it, the counter of a third row with that key.
   */
  ghost predicate SpentCountersFound(rows: Rows, m: Permission)
    requires CanSpend(rows, KeyOfPermission(m))
  {
    m.maxBudget.Some? ==>
      forall k :: AtKey(rows, k, Key(m)) && 1 <= rows[k].remaining != rows[KeyOfPermission(m)].remaining ==>
        ElsewhereAtKey(rows, m, rows[k].remaining - 1)
  }

  ghost predicate ElsewhereAtKey(rows: Rows, m: Permission, v: int) {
    exists j :: AtKey(rows, j, Key(m)) && j != KeyOfPermission(m) && rows[j].remaining == v
  }

  /** What the update leaves under the key of `m`: one unit less in its own row, every other row as it was. */
  lemma LeftAtKey(rows: Rows, m: Permission, v: int)
    requires CanSpend(rows, KeyOfPermission(m)) && PermissionAt(rows, KeyOfPermission(m)) == m && m.maxBudget.Some?
    ensures FromSomeRow(Spent(rows, KeyOfPermission(m)), Key(m), v)
       <==> v == rows[KeyOfPermission(m)].remaining - 1 || ElsewhereAtKey(rows, m, v)
  {
    var own := KeyOfPermission(m);
    var after := Spent(rows, own);
    assert AtKey(after, own, Key(m));
    if FromSomeRow(after, Key(m), v) {
      var k :| AtKey(after, k, Key(m)) && after[k].remaining == v;
      SpentRow(rows, own, k, Key(m));
    }
    if ElsewhereAtKey(rows, m, v) {
      var j :| AtKey(rows, j, Key(m)) && j != own && rows[j].remaining == v;
      SpentRow(rows, own, j, Key(m));
    }
  }

  /**
   After a durable spend the rows read back as what the object becomes by
   spending, for every reading, if and only if no counter it may have read is
   left without a row.
   */
  lemma SpendingCorrespondsExactly(rows: Rows, req: Permission, m: Permission)
    requires Match(PermissionsOf(rows), req) == Some(m) && CanSpend(rows, KeyOfPermission(m))
    ensures SpentCountersFound(rows, m)
       <==> forall g :: IsReading(rows, g) ==> IsReading(Spent(rows, KeyOfPermission(m)), Authorities.Consume(g, req, 1))
  {
    if SpentCountersFound(rows, m) {
      forall g | IsReading(rows, g) ensures IsReading(Spent(rows, KeyOfPermission(m)), Authorities.Consume(g, req, 1)) {
        SpentReadsBack(rows, req, m, g);
      }
    } else {
      var g := LostCounter(rows, req, m);
    }
  }

  /** It holds whenever no other metered row has the same counter key. */
  lemma OwnKeyCorresponds(rows: Rows, m: Permission)
    requires KeyOfPermission(m) in rows && PermissionAt(rows, KeyOfPermission(m)) == m && CanSpend(rows, KeyOfPermission(m))
    requires forall k :: AtKey(rows, k, Key(m)) ==> k == KeyOfPermission(m)
    ensures SpentCountersFound(rows, m) && SharedCountersAgree(rows, m)
  {}

  lemma SpentRow(rows: Rows, own: RowKey, k: RowKey, key: string)
    requires CanSpend(rows, own)
    ensures AtKey(Spent(rows, own), k, key) <==> AtKey(rows, k, key)
    ensures k in rows && k != own ==> Spent(rows, own)[k] == rows[k]
  {}

  lemma SpentReadsBack(rows: Rows, req: Permission, m: Permission, g: Grants)
    requires Match(PermissionsOf(rows), req) == Some(m) && CanSpend(rows, KeyOfPermission(m))
    requires SpentCountersFound(rows, m) && IsReading(rows, g)
    ensures IsReading(Spent(rows, KeyOfPermission(m)), Authorities.Consume(g, req, 1))
  {
    var own := KeyOfPermission(m);
    var after, spent := Spent(rows, own), Authorities.Consume(g, req, 1);
    if m.maxBudget.Some? {
      assert after.Keys == rows.Keys && PermissionsOf(after) == PermissionsOf(rows);
      forall key | key in spent.stored ensures FromSomeRow(after, key, spent.stored[key]) {
        SpentCounter(rows, m, g, key, spent.stored[key]);
      }
    }
  }

  lemma SpentCounter(rows: Rows, m: Permission, g: Grants, key: string, v: int)
    requires CanSpend(rows, KeyOfPermission(m)) && PermissionAt(rows, KeyOfPermission(m)) == m && m.maxBudget.Some?
    requires SpentCountersFound(rows, m) && key in g.stored && FromSomeRow(rows, key, g.stored[key])
    requires v == if key == Key(m) && g.stored[key] >= 1 then g.stored[key] - 1 else g.stored[key]
    ensures FromSomeRow(Spent(rows, KeyOfPermission(m)), key, v)
  {
    var k :| AtKey(rows, k, key) && rows[k].remaining == g.stored[key];
    SpentRow(rows, KeyOfPermission(m), k, key);
    LeftAtKey(rows, m, v);
  }

  lemma LostCounter(rows: Rows, req: Permission, m: Permission) returns (g: Grants)
    requires Match(PermissionsOf(rows), req) == Some(m) && CanSpend(rows, KeyOfPermission(m)) && !SpentCountersFound(rows, m)
    ensures IsReading(rows, g) && !IsReading(Spent(rows, KeyOfPermission(m)), Authorities.Consume(g, req, 1))
  {
    var k :| AtKey(rows, k, Key(m)) && 1 <= rows[k].remaining != rows[KeyOfPermission(m)].remaining
             && !ElsewhereAtKey(rows, m, rows[k].remaining - 1);
    LeftAtKey(rows, m, rows[k].remaining - 1);
    g := ReadingFrom(rows, k);
  }

  // ---- what restrictions do to the price of a request ----

  /** With the `active` restrictions the rows answer the request without charging it. */
  ghost predicate Free(rows: Rows, active: set<Permission>, req: Permission) {
    var m := Resolution(rows, active, req);
    m.Some? && m.value.maxBudget.None?
  }

  /**
   Restrictions never make a metered request free exactly when no metered
   wildcard row masks an unlimited one.
   */
  lemma RestrictionsNeverFreeExactly(rows: Rows)
    ensures
      (forall few, many, req :: few <= many && Free(rows, many, req) ==> Free(rows, few, req))
      <==> NothingMasked(PermissionsOf(rows), (p: Permission) => p.maxBudget.None?)
  {
    var base, u := Grants(PermissionsOf(rows), map[]), (p: Permission) => p.maxBudget.None?;
    AntitoneExactly(base, u);
    forall active, req ensures Free(rows, active, req) <==> Answers(base, active, req, u) {
      assert Effective(rows, active) == Untouched(base, active);
    }
  }

  /**
   With one unit left on every scope and scope "x" unlimited, a request on "x"
   costs the unit. Under a restriction on scope "y" it is free.
   */
  lemma RestrictionFreesRequest()
    ensures
      var rows := map[KeyOfPermission(READ_ALL) := Row(Some(1), 1), KeyOfPermission(READ_X) := Row(None, 0)];
      Resolution(rows, {}, READ_X) == Some(READ_ALL) && Resolution(rows, ON_Y, READ_X) == Some(READ_X)
  {
    var rows := map[KeyOfPermission(READ_ALL) := Row(Some(1), 1), KeyOfPermission(READ_X) := Row(None, 0)];
    MaskedGovernors();
    assert PermissionsOf(rows) == MASKED.permissions by {
      assert READ_ALL in PermissionsOf(rows) && READ_X in PermissionsOf(rows);
    }
    assert Effective(rows, {}) == MASKED.permissions && Effective(rows, ON_Y) == Untouched(MASKED, ON_Y);
  }
}
