/** Bounding the size and shape of a payload with one counter shared by the whole traversal. */
module Payload {

  const MAX_DEPTH := 8
  const MAX_NODES := 10_000
  const MAX_STRING_LEN := 65_536
  const MAX_KEY_LEN := 256

  datatype Key = Name(text: string) | OtherKey

  datatype Entry = Entry(key: Key, value: Value)

  /** `Scalar` is None, a bool, an int or a float; `Foreign` is a value of any other type. */
  datatype Value =
    | Dict(entries: seq<Entry>)
    | List(items: seq<Value>)
    | Text(text: string)
    | Scalar
    | Foreign

  function Arity(v: Value): nat {
    match v
    case Dict(entries) => |entries|
    case List(items) => |items|
    case _ => 0
  }

  function Child(v: Value, i: nat): (c: Value)
    requires i < Arity(v)
    ensures c < v
  {
    match v
    case Dict(entries) => entries[i].value
    case List(items) => items[i]
  }

  predicate KeyOk(k: Key) {
    k.Name? && |k.text| <= MAX_KEY_LEN
  }

  /** The key of child `i`, when it has one, meets its rules. */
  predicate ChildKeyOk(v: Value, i: nat)
    requires i < Arity(v)
  {
    v.Dict? ==> KeyOk(v.entries[i].key)
  }

  /** The value's own type and length rules, children and keys aside. */
  predicate LocallyOk(v: Value) {
    match v
    case Text(text) => |text| <= MAX_STRING_LEN
    case Foreign => false
    case _ => true
  }

  /** Every value of the tree meets its rules and none lies deeper than `room` below the root. */
  predicate Fits(v: Value, room: int)
    decreases v
  {
    room >= 0 && LocallyOk(v)
    && forall i: nat :: i < Arity(v) ==> ChildKeyOk(v, i) && Fits(Child(v, i), room - 1)
  }

  function Nodes(v: Value): (n: nat)
    ensures n >= 1
    decreases v, Arity(v) + 1
  {
    1 + NodesBelow(v, Arity(v))
  }

  /** The values in the first `n` children and below them. */
  function NodesBelow(v: Value, n: nat): nat
    requires n <= Arity(v)
    decreases v, n
  {
    if n == 0 then 0 else NodesBelow(v, n - 1) + Nodes(Child(v, n - 1))
  }

  lemma {:induction false} NodesBelowMonotone(v: Value, n: nat, m: nat)
    requires n <= m <= Arity(v)
    ensures NodesBelow(v, n) <= NodesBelow(v, m)
    decreases m
  {
    if n < m {
      NodesBelowMonotone(v, n, m - 1);
    }
  }

  // ---- the limits, value by value ----

  /** `u` lies `depth` levels below the root of `v`. */
  predicate Occurs(u: Value, v: Value, depth: nat)
    decreases v
  {
    if depth == 0 then u == v
    else exists i: nat :: i < Arity(v) && Occurs(u, Child(v, i), depth - 1)
  }

  /** One value, and the keys it holds: short strings, short string keys, and no foreign type. */
  predicate Permitted(u: Value) {
    match u
    case Dict(entries) => forall i :: 0 <= i < |entries| ==> entries[i].key.Name? && |entries[i].key.text| <= 256
    case Text(text) => |text| <= 65_536
    case Foreign => false
    case _ => true
  }

  lemma {:induction false} FitsExactly(v: Value, room: nat)
    ensures Fits(v, room) <==> forall u, depth: nat :: Occurs(u, v, depth) ==> depth <= room && Permitted(u)
    decreases v
  {
    if Fits(v, room) {
      forall u, depth: nat | Occurs(u, v, depth) ensures depth <= room && Permitted(u) {
        FittingOccurs(v, room, u, depth);
      }
    } else {
      var u, depth := NotFitting(v, room);
      assert Occurs(u, v, depth) && (depth > room || !Permitted(u));
    }
  }

  lemma {:induction false} FittingOccurs(v: Value, room: int, u: Value, depth: nat)
    requires Fits(v, room) && Occurs(u, v, depth)
    ensures depth <= room && Permitted(u)
    decreases v
  {
    if depth == 0 {
      forall i: nat | i < Arity(v) ensures ChildKeyOk(v, i) {}
      if v.Dict? {
        forall i | 0 <= i < |v.entries| ensures KeyOk(v.entries[i].key) {
          assert ChildKeyOk(v, i);
        }
      }
    } else {
      var i: nat :| i < Arity(v) && Occurs(u, Child(v, i), depth - 1);
      FittingOccurs(Child(v, i), room - 1, u, depth - 1);
    }
  }

  /** What does not fit has a value that is too deep or not permitted. */
  lemma {:induction false} NotFitting(v: Value, room: int) returns (u: Value, depth: nat)
    requires !Fits(v, room)
    ensures Occurs(u, v, depth) && !(depth <= room && Permitted(u))
    decreases v
  {
    if room < 0 || !LocallyOk(v) {
      u, depth := v, 0;
    } else {
      var i: nat :| i < Arity(v) && !(ChildKeyOk(v, i) && Fits(Child(v, i), room - 1));
      if !ChildKeyOk(v, i) {
        u, depth := v, 0;
        assert !KeyOk(v.entries[i].key);
      } else {
        u, depth := NotFitting(Child(v, i), room - 1);
        depth := depth + 1;
        assert Occurs(u, Child(v, i), depth - 1);
      }
    }
  }

  /** The accepted trees are those of at most 10,000 values, none deeper than eight levels and each permitted. */
  lemma WithinLimitsExactly(v: Value)
    ensures WithinLimits(v) <==>
              Nodes(v) <= 10_000 && forall u, depth: nat :: Occurs(u, v, depth) ==> depth <= 8 && Permitted(u)
  {
    FitsExactly(v, 8);
  }

  /** The accepted trees, stated without the counter. */
  predicate WithinLimits(v: Value) {
    Fits(v, MAX_DEPTH) && Nodes(v) <= MAX_NODES
  }

  /** Child `i` is one no acceptance of `v` could have got past. */
  ghost predicate Blocks(v: Value, i: nat, room: int, nodes: int) {
    i < Arity(v) && (!ChildKeyOk(v, i) || !Fits(Child(v, i), room - 1) || NodesBelow(v, i + 1) > nodes)
  }

  lemma BlockedIsRejected(v: Value, i: nat, room: int, nodes: int)
    requires Blocks(v, i, room, nodes)
    ensures !(Fits(v, room) && NodesBelow(v, Arity(v)) <= nodes)
  {
    NodesBelowMonotone(v, i + 1, Arity(v));
  }

  /** The shared counter, and how many values the traversal has looked at. */
  class Budget {
    var left: int
    ghost var visits: nat

    constructor (left: int)
      ensures this.left == left && visits == 0
    {
      this.left := left;
      visits := 0;
    }
  }

  /**
   Accepts exactly the trees that fit the remaining depth and the remaining
   budget, and stops at the first value that does not.
   */
  method WithinBudget(v: Value, depth: nat, budget: Budget) returns (ok: bool)
    requires budget.left >= 0
    modifies budget
    ensures ok <==> Fits(v, MAX_DEPTH - depth) && Nodes(v) <= old(budget.left)
    ensures ok ==> budget.left == old(budget.left) - Nodes(v)
    ensures ok ==> budget.visits == old(budget.visits) + Nodes(v)
    ensures budget.visits - old(budget.visits) <= old(budget.left) + 1
    decreases v, 1
  {
    budget.visits := budget.visits + 1;
    if depth > MAX_DEPTH {
      return false;
    }
    budget.left := budget.left - 1;
    if budget.left < 0 {
      return false;
    }
    match v
    case Dict(entries) =>
      ghost var left := budget.left;
      ghost var at;
      ok, at := EntriesWithinBudget(v, entries, depth, budget);
      if !ok {
        BlockedIsRejected(v, at, MAX_DEPTH - depth, left);
      }
    case List(items) =>
      ghost var left := budget.left;
      ghost var at;
      ok, at := ItemsWithinBudget(v, items, depth, budget);
      if !ok {
        BlockedIsRejected(v, at, MAX_DEPTH - depth, left);
      }
    case Text(text) =>
      ok := |text| <= MAX_STRING_LEN;
    case Scalar =>
      ok := true;
    case Foreign =>
      ok := false;
  }

  ghost predicate ChildrenFit(v: Value, n: nat, room: int)
    requires n <= Arity(v)
  {
    forall i: nat :: i < n ==> ChildKeyOk(v, i) && Fits(Child(v, i), room - 1)
  }

  method EntriesWithinBudget(v: Value, entries: seq<Entry>, depth: nat, budget: Budget) returns (ok: bool, ghost at: nat)
    requires v == Dict(entries) && budget.left >= 0
    modifies budget
    ensures ok ==> ChildrenFit(v, Arity(v), MAX_DEPTH - depth)
    ensures !ok ==> Blocks(v, at, MAX_DEPTH - depth, old(budget.left))
    ensures ok ==> 0 <= budget.left == old(budget.left) - NodesBelow(v, Arity(v))
    ensures ok ==> budget.visits == old(budget.visits) + NodesBelow(v, Arity(v))
    ensures budget.visits - old(budget.visits) <= old(budget.left) + 1
    decreases v, 0
  {
    at := 0;
    for i := 0 to |entries|
      invariant ChildrenFit(v, i, MAX_DEPTH - depth)
      invariant 0 <= budget.left == old(budget.left) - NodesBelow(v, i)
      invariant budget.visits == old(budget.visits) + NodesBelow(v, i)
    {
      at := i;
      assert Child(v, i) == entries[i].value && (ChildKeyOk(v, i) <==> KeyOk(entries[i].key));
      if !KeyOk(entries[i].key) {
        return false, at;
      }
      var fits := WithinBudget(entries[i].value, depth + 1, budget);
      if !fits {
        return false, at;
      }
    }
    return true, at;
  }

  method ItemsWithinBudget(v: Value, items: seq<Value>, depth: nat, budget: Budget) returns (ok: bool, ghost at: nat)
    requires v == List(items) && budget.left >= 0
    modifies budget
    ensures ok ==> ChildrenFit(v, Arity(v), MAX_DEPTH - depth)
    ensures !ok ==> Blocks(v, at, MAX_DEPTH - depth, old(budget.left))
    ensures ok ==> 0 <= budget.left == old(budget.left) - NodesBelow(v, Arity(v))
    ensures ok ==> budget.visits == old(budget.visits) + NodesBelow(v, Arity(v))
    ensures budget.visits - old(budget.visits) <= old(budget.left) + 1
    decreases v, 0
  {
    at := 0;
    for i := 0 to |items|
      invariant ChildrenFit(v, i, MAX_DEPTH - depth)
      invariant 0 <= budget.left == old(budget.left) - NodesBelow(v, i)
      invariant budget.visits == old(budget.visits) + NodesBelow(v, i)
    {
      at := i;
      assert Child(v, i) == items[i];
      var fits := WithinBudget(items[i], depth + 1, budget);
      if !fits {
        return false, at;
      }
    }
    return true, at;
  }

  /** The check made on a proposal: it looks at no more than 10,001 values whatever it is given. */
  method PayloadWithinLimits(v: Value) returns (ok: bool, ghost visits: nat)
    ensures ok == WithinLimits(v)
    ensures visits <= 10_001
  {
    var budget := new Budget(MAX_NODES);
    ok := WithinBudget(v, 0, budget);
    visits := budget.visits;
  }
}
