/**
 The mutable authority object. Its methods enumerate sets in an arbitrary order
 and are proved against the value-level algebra of `Authorities`.
 */
module AuthorityObject {
  import opened Prelude
  import opened Permissions
  import opened Authorities

  class Authority {
    var permissions: set<Permission>
    var budgetRemaining: map<string, int>

    ghost function Value(): Grants
      reads this
    {
      Grants(permissions, budgetRemaining)
    }

    constructor (permissions: set<Permission>, budgetRemaining: map<string, int>)
      ensures Value() == Grants(permissions, budgetRemaining)
    {
      this.permissions, this.budgetRemaining := permissions, budgetRemaining;
    }

    method Resolve(required: Permission) returns (m: Option<Permission>)
      ensures m == Match(permissions, required)
    {
      m := None;
      var todo := permissions;
      while todo != {}
        invariant todo <= permissions
        invariant m.Some? ==> IsMatch(permissions - todo, required, m.value)
        invariant m.None? ==> forall p :: p in permissions - todo ==> !Covers(p, required)
        decreases |todo|
      {
        var p :| p in todo;
        todo := todo - {p};
        if Covers(p, required) {
          SortsBeforeTotal(p, p);
          if m.None? {
            m := Some(p);
          } else {
            SortsBeforeTotal(p, m.value);
            if !SortsBefore(m.value, p) {
              EarlierStillFirst(permissions - todo - {p}, required, m.value, p);
              m := Some(p);
            }
          }
        }
      }
      assert permissions - todo == permissions;
      if m.Some? {
        MatchIs(permissions, required, m.value);
      }
    }

    lemma EarlierStillFirst(seen: set<Permission>, required: Permission, m: Permission, p: Permission)
      requires IsMatch(seen, required, m) && Covers(p, required) && SortsBefore(p, m)
      ensures forall q :: q in seen && Covers(q, required) ==> SortsBefore(p, q)
    {
      forall q | q in seen && Covers(q, required) ensures SortsBefore(p, q) {
        SortsBeforeTransitive(p, m, q);
      }
    }

    method Can(required: Permission) returns (b: bool)
      ensures b == Authorities.Can(Value(), required)
    {
      b := exists p | p in permissions :: Covers(p, required);
    }

    method HasBudget(required: Permission) returns (b: bool)
      ensures b == Authorities.HasBudget(Value(), required)
    {
      var m := Resolve(required);
      b := m.Some? && (m.value.maxBudget.Some? ==> Remaining(m.value, budgetRemaining) > 0);
    }

    method IsSubsetOf(other: Authority) returns (b: bool)
      ensures b == SubsetOf(Value(), other.Value())
    {
      var todo := permissions;
      while todo != {}
        invariant todo <= permissions
        invariant forall p :: p in permissions - todo ==> Contained(p, budgetRemaining, other.Value())
        decreases |todo|
      {
        var p :| p in todo;
        todo := todo - {p};
        var m := other.Resolve(p);
        if m.None? {
          return false;
        }
        if p.maxBudget.None? {
          if m.value.maxBudget.Some? {
            return false;
          }
        } else if m.value.maxBudget.Some? {
          if p.maxBudget.value > m.value.maxBudget.value {
            return false;
          }
          var claimed := Min(Remaining(p, budgetRemaining), p.maxBudget.value);
          if claimed > Remaining(m.value, other.budgetRemaining) {
            return false;
          }
        }
      }
      return true;
    }

    method ConsumeBudget(required: Permission, amount: int) returns (ok: bool)
      modifies this`budgetRemaining
      ensures ok == CanConsume(old(Value()), required, amount)
      ensures Value() == Consume(old(Value()), required, amount)
    {
      var m := Resolve(required);
      if m.None? {
        return false;
      }
      if m.value.maxBudget.None? {
        return true;
      }
      var current := Remaining(m.value, budgetRemaining);
      if current < amount {
        return false;
      }
      budgetRemaining := budgetRemaining[Key(m.value) := current - amount];
      return true;
    }

    method ReduceTo(allowed: set<Permission>) returns (r: Authority)
      ensures fresh(r) && IsReduced(Value(), allowed, r.Value())
    {
      var kept := {};
      var todo := permissions;
      while todo != {}
        invariant todo <= permissions
        invariant kept == set p | p in permissions - todo && Allowed(p, allowed)
        decreases |todo|
      {
        var p :| p in todo;
        todo := todo - {p};
        if exists a | a in allowed :: Covers(a, p) {
          kept := kept + {p};
        }
      }
      var newBudgets: map<string, int> := map[];
      todo := kept;
      while todo != {}
        invariant todo <= kept
        invariant forall p :: p in kept - todo && (Key(p) in budgetRemaining || p.maxBudget.Some?) ==> Key(p) in newBudgets
        invariant forall k {:trigger newBudgets[k]} :: k in newBudgets ==>
                    exists p :: p in kept && Key(p) == k && Carries(Value(), p, newBudgets[k])
        decreases |todo|
      {
        var p :| p in todo;
        todo := todo - {p};
        if Key(p) in budgetRemaining {
          newBudgets := newBudgets[Key(p) := budgetRemaining[Key(p)]];
        } else if p.maxBudget.Some? {
          newBudgets := newBudgets[Key(p) := p.maxBudget.value];
        }
      }
      r := new Authority(kept, newBudgets);
    }

    method ClampToCeiling(ceiling: Authority) returns (r: Authority)
      ensures fresh(r) && IsClamp(Value(), ceiling.Value(), r.Value())
    {
      var kept := {};
      var newBudgets: map<string, int> := map[];
      var todo := permissions;
      while todo != {}
        invariant todo <= permissions
        invariant IsClamp(Grants(permissions - todo, budgetRemaining), ceiling.Value(), Grants(kept, newBudgets))
        decreases |todo|
      {
        var p :| p in todo;
        ghost var seen := Grants(permissions - todo, budgetRemaining);
        ClampNextExtends(seen, ceiling.Value(), p, Grants(kept, newBudgets));
        todo := todo - {p};
        assert permissions - todo == seen.permissions + {p};
        var c := ceiling.Resolve(p);
        if c.Some? {
          var clamped := p.(maxBudget := Tighter(p.maxBudget, c.value.maxBudget));
          kept := kept + {clamped};
          if clamped.maxBudget.Some? {
            newBudgets := newBudgets[Key(p) := CappedRemaining(p, clamped.maxBudget.value, budgetRemaining)];
          }
        }
      }
      assert permissions - todo == permissions;
      r := new Authority(kept, newBudgets);
    }

    method Copy() returns (r: Authority)
      ensures fresh(r) && r.Value() == Value()
    {
      r := new Authority(permissions, budgetRemaining);
    }
  }
}
