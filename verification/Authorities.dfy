/**
 The authority algebra on values: containment, spending, reduction to a subset
 and clamping to a ceiling, with the exact conditions under which containment
 composes.

 Several permissions of one authority may share a counter key, and the loops
 that rebuild the counters walk a set in no particular order. Reduction and
 clamping are therefore relations between an input and every possible result.
 */
module Authorities {
  import opened Prelude
  import opened Permissions

  datatype Grants = Grants(permissions: set<Permission>, stored: map<string, int>)

  const NOTHING := Grants({}, map[])

  // ---- counters ----

  /** The counter of a metered permission: the stored one, else its ceiling. */
  function Remaining(p: Permission, stored: map<string, int>): int
    requires p.maxBudget.Some?
  {
    if Key(p) in stored then stored[Key(p)] else p.maxBudget.value
  }

  /** What a metered permission may claim: never more than its own ceiling. */
  function Claimed(p: Permission, stored: map<string, int>): int
    requires p.maxBudget.Some?
  {
    Min(Remaining(p, stored), p.maxBudget.value)
  }

  // ---- queries ----

  ghost predicate Can(g: Grants, req: Permission) {
    exists p :: p in g.permissions && Covers(p, req)
  }

  ghost predicate HasBudget(g: Grants, req: Permission) {
    var m := Match(g.permissions, req);
    m.Some? && (m.value.maxBudget.Some? ==> Remaining(m.value, g.stored) > 0)
  }

  /** One permission of an offer, with its stored counters, is held by `source`. */
  ghost predicate Contained(p: Permission, stored: map<string, int>, source: Grants) {
    var m := Match(source.permissions, p);
    && m.Some?
    && (m.value.maxBudget.Some? ==>
          && p.maxBudget.Some?
          && p.maxBudget.value <= m.value.maxBudget.value
          && Claimed(p, stored) <= Remaining(m.value, source.stored))
  }

  ghost predicate SubsetOf(a: Grants, b: Grants) {
    forall p :: p in a.permissions ==> Contained(p, a.stored, b)
  }

  // ---- spending ----

  ghost predicate CanConsume(g: Grants, req: Permission, amount: int) {
    var m := Match(g.permissions, req);
    m.Some? && (m.value.maxBudget.Some? ==> Remaining(m.value, g.stored) >= amount)
  }

  /** The authority after `amount` was asked for; unchanged when refused or not metered. */
  ghost function Consume(g: Grants, req: Permission, amount: int): Grants {
    var m := Match(g.permissions, req);
    if CanConsume(g, req, amount) && m.value.maxBudget.Some? then
      g.(stored := g.stored[Key(m.value) := Remaining(m.value, g.stored) - amount])
    else
      g
  }

  /** There is budget left exactly when one unit can be consumed. */
  lemma BudgetIsOneUnit(g: Grants, req: Permission)
    ensures HasBudget(g, req) <==> CanConsume(g, req, 1)
  {}

  /** A spend takes exactly the units asked for from the governing counter and leaves every other; a refusal takes nothing. */
  lemma SpendTakesExactly(g: Grants, req: Permission, m: Permission, amount: int)
    requires IsMatch(g.permissions, req, m) && m.maxBudget.Some?
    ensures
      var left := if m.name + ":" + m.scope in g.stored then g.stored[m.name + ":" + m.scope] else m.maxBudget.value;
      var after := Consume(g, req, amount);
      && (CanConsume(g, req, amount) <==> left >= amount)
      && after.permissions == g.permissions
      && (left >= amount ==> after.stored == g.stored[m.name + ":" + m.scope := left - amount])
      && (left < amount ==> after == g)
  {
    MatchIs(g.permissions, req, m);
  }

  /** An unlimited governor grants everything and keeps no count; without a governor nothing is granted. */
  lemma UnmeteredSpend(g: Grants, req: Permission, amount: int)
    ensures
      var m := Match(g.permissions, req);
      && (m.Some? && m.value.maxBudget.None? ==> CanConsume(g, req, amount) && HasBudget(g, req) && Consume(g, req, amount) == g)
      && (m.None? ==> !CanConsume(g, req, amount) && !HasBudget(g, req) && Consume(g, req, amount) == g)
  {}

  // ---- shrinking: the common shape of spending and reducing ----

  /** `y` holds a part of what `x` holds and claims no more on any of it. */
  ghost predicate Shrinks(x: Grants, y: Grants) {
    && y.permissions <= x.permissions
    && forall p :: p in y.permissions && p.maxBudget.Some? ==> Claimed(p, y.stored) <= Claimed(p, x.stored)
  }

  /** Shrinking can only stay inside whatever contained the authority before. */
  lemma ShrinkingStaysContained(x: Grants, y: Grants, root: Grants)
    requires Shrinks(x, y) && SubsetOf(x, root)
    ensures SubsetOf(y, root)
  {}

  lemma ConsumeShrinks(g: Grants, req: Permission, amount: int)
    requires amount >= 0
    ensures Shrinks(g, Consume(g, req, amount))
  {}

  // ---- reduction to allowed permissions ----

  ghost predicate Allowed(p: Permission, allowed: set<Permission>) {
    exists a :: a in allowed && Covers(a, p)
  }

  ghost function Kept(g: Grants, allowed: set<Permission>): set<Permission> {
    set p | p in g.permissions && Allowed(p, allowed)
  }

  /** `v` is a value the rebuilding loop may leave under the key of kept permission `p`. */
  predicate Carries(g: Grants, p: Permission, v: int) {
    if Key(p) in g.stored then v == g.stored[Key(p)] else p.maxBudget == Some(v)
  }

  /** `r` is a possible result of reducing `g` to the `allowed` permissions. */
  ghost predicate IsReduced(g: Grants, allowed: set<Permission>, r: Grants) {
    && r.permissions == Kept(g, allowed)
    && (forall p :: p in r.permissions && (Key(p) in g.stored || p.maxBudget.Some?) ==> Key(p) in r.stored)
    && (forall k {:trigger r.stored[k]} :: k in r.stored ==> exists p :: p in r.permissions && Key(p) == k && Carries(g, p, r.stored[k]))
  }

  lemma ReducedShrinks(g: Grants, allowed: set<Permission>, r: Grants)
    requires IsReduced(g, allowed, r)
    ensures Shrinks(g, r)
  {}

  /** No two kept permissions disagree about a counter that is not stored yet. */
  ghost predicate UnstoredCountersAgree(g: Grants, kept: set<Permission>) {
    forall p, q :: (p in kept && q in kept && Key(p) == Key(q) && Key(p) !in g.stored
                    && p.maxBudget.Some? && q.maxBudget.Some?) ==> p.maxBudget == q.maxBudget
  }

  ghost predicate SameRemaining(g: Grants, r: Grants) {
    forall p :: p in r.permissions && p.maxBudget.Some? ==> Remaining(p, r.stored) == Remaining(p, g.stored)
  }

  /** Reduction carries every counter across exactly when no unstored key is shared by different ceilings. */
  lemma ReductionKeepsCountersExactly(g: Grants, allowed: set<Permission>)
    ensures UnstoredCountersAgree(g, Kept(g, allowed))
       <==> forall r :: IsReduced(g, allowed, r) ==> SameRemaining(g, r)
  {
    var kept := Kept(g, allowed);
    if UnstoredCountersAgree(g, kept) {
      forall r | IsReduced(g, allowed, r) ensures SameRemaining(g, r) {
        forall p | p in r.permissions && p.maxBudget.Some? ensures Remaining(p, r.stored) == Remaining(p, g.stored) {
          var q :| q in r.permissions && Key(q) == Key(p) && Carries(g, q, r.stored[Key(p)]);
        }
      }
    } else {
      var p, q :| p in kept && q in kept && Key(p) == Key(q) && Key(p) !in g.stored
                  && p.maxBudget.Some? && q.maxBudget.Some? && p.maxBudget != q.maxBudget;
      var r := ReductionPreferring(g, allowed, p);
      assert !SameRemaining(g, r) by {
        assert Remaining(q, r.stored) == p.maxBudget.value;
      }
    }
  }

  /** A reduction whose loop visits `p` after every other permission with the same key. */
  lemma ReductionPreferring(g: Grants, allowed: set<Permission>, p: Permission) returns (r: Grants)
    requires p in Kept(g, allowed) && Key(p) !in g.stored && p.maxBudget.Some?
    ensures IsReduced(g, allowed, r)
    ensures Key(p) in r.stored && r.stored[Key(p)] == p.maxBudget.value
  {
    var kept := Kept(g, allowed);
    var keys := set q | q in kept && (Key(q) in g.stored || q.maxBudget.Some?) :: Key(q);
    var stored := map k | k in keys ::
      if k in g.stored then g.stored[k]
      else if k == Key(p) then p.maxBudget.value
      else SomeWithKey(kept, g.stored, k).maxBudget.value;
    r := Grants(kept, stored);
    assert p in kept && Key(p) in keys;
    forall k | k in r.stored ensures exists q :: q in kept && Key(q) == k && Carries(g, q, r.stored[k]) {
      var w := if k == Key(p) then p else SomeWithKey(kept, g.stored, k);
      assert Carries(g, w, r.stored[k]);
    }
  }

  ghost function SomeWithKey(kept: set<Permission>, stored: map<string, int>, k: string): (p: Permission)
    requires exists q :: q in kept && Key(q) == k && (k in stored || q.maxBudget.Some?)
    ensures p in kept && Key(p) == k && (k in stored || p.maxBudget.Some?)
  {
    var p :| p in kept && Key(p) == k && (k in stored || p.maxBudget.Some?);
    p
  }

  // ---- clamping to a ceiling ----

  /** The smaller of two optional budgets, where no budget means unlimited. */
  function Tighter(a: Option<nat>, b: Option<nat>): Option<nat> {
    match (a, b)
    case (None, _) => b
    case (_, None) => a
    case (Some(x), Some(y)) => if x <= y then a else b
  }

  /** What clamping makes of one offered permission, if the ceiling authorises it at all. */
  ghost function Clamped(p: Permission, ceiling: set<Permission>): Option<Permission> {
    var c := Match(ceiling, p);
    if c.None? then None else Some(p.(maxBudget := Tighter(p.maxBudget, c.value.maxBudget)))
  }

  function CappedRemaining(p: Permission, cap: nat, stored: map<string, int>): int {
    Max(0, Min(if Key(p) in stored then stored[Key(p)] else cap, cap))
  }

  /** `v` is a value the clamping loop may leave under key `k` when it visits offered permission `p`. */
  ghost predicate CapsTo(a: Grants, ceiling: set<Permission>, p: Permission, k: string, v: int) {
    && p in a.permissions
    && Key(p) == k
    && Clamped(p, ceiling).Some?
    && Clamped(p, ceiling).value.maxBudget.Some?
    && v == CappedRemaining(p, Clamped(p, ceiling).value.maxBudget.value, a.stored)
  }

  ghost function ClampedAll(offered: set<Permission>, ceiling: set<Permission>): set<Permission> {
    set p | p in offered && Clamped(p, ceiling).Some? :: Clamped(p, ceiling).value
  }

  lemma ClampedAllStep(seen: set<Permission>, p: Permission, ceiling: set<Permission>)
    ensures ClampedAll(seen + {p}, ceiling)
         == ClampedAll(seen, ceiling) + (if Clamped(p, ceiling).Some? then {Clamped(p, ceiling).value} else {})
  {}

  /** `r` is a possible result of clamping the offer `a` to `ceiling`. */
  ghost predicate IsClamp(a: Grants, ceiling: Grants, r: Grants) {
    && r.permissions == ClampedAll(a.permissions, ceiling.permissions)
    && (forall q :: q in r.permissions && q.maxBudget.Some? ==> Key(q) in r.stored)
    && (forall k {:trigger r.stored[k]} :: k in r.stored ==> exists p :: CapsTo(a, ceiling.permissions, p, k, r.stored[k]))
  }

  /** One iteration of the clamping loop: the result for one more offered permission. */
  ghost function ClampNext(stored: map<string, int>, ceiling: Grants, p: Permission, r: Grants): Grants {
    var q := Clamped(p, ceiling.permissions);
    if q.None? then r
    else if q.value.maxBudget.None? then r.(permissions := r.permissions + {q.value})
    else Grants(r.permissions + {q.value},
                r.stored[Key(p) := CappedRemaining(p, q.value.maxBudget.value, stored)])
  }

  lemma ClampNextExtends(a: Grants, ceiling: Grants, p: Permission, r: Grants)
    requires IsClamp(a, ceiling, r)
    ensures IsClamp(a.(permissions := a.permissions + {p}), ceiling, ClampNext(a.stored, ceiling, p, r))
  {
    var b := a.(permissions := a.permissions + {p});
    var s := ClampNext(a.stored, ceiling, p, r);
    ClampedAllStep(a.permissions, p, ceiling.permissions);
    forall k | k in s.stored ensures exists x :: CapsTo(b, ceiling.permissions, x, k, s.stored[k]) {
      var x := CounterOfNext(a, ceiling, p, r, k);
    }
  }

  lemma CounterOfNext(a: Grants, ceiling: Grants, p: Permission, r: Grants, k: string) returns (x: Permission)
    requires IsClamp(a, ceiling, r) && k in ClampNext(a.stored, ceiling, p, r).stored
    ensures CapsTo(a.(permissions := a.permissions + {p}), ceiling.permissions, x, k, ClampNext(a.stored, ceiling, p, r).stored[k])
  {
    var q := Clamped(p, ceiling.permissions);
    if q.Some? && q.value.maxBudget.Some? && k == Key(p) {
      x := p;
    } else {
      x :| CapsTo(a, ceiling.permissions, x, k, r.stored[k]);
    }
  }

  /** `q` is `p` with a budget and a claim no larger than before. */
  predicate TightenedFrom(p: Permission, before: map<string, int>, q: Permission, after: map<string, int>) {
    && q == p.(maxBudget := q.maxBudget)
    && (p.maxBudget.Some? ==> q.maxBudget.Some? && q.maxBudget.value <= p.maxBudget.value)
    && (q.maxBudget.Some? ==> 0 <= Claimed(q, after) <= CappedRemaining(p, q.maxBudget.value, before))
  }

  ghost predicate Tightens(a: Grants, r: Grants) {
    forall q :: q in r.permissions ==> exists p :: p in a.permissions && TightenedFrom(p, a.stored, q, r.stored)
  }

  /** Every clamped permission comes from an offered one and claims no more than it did. */
  lemma ClampTightens(a: Grants, ceiling: Grants, r: Grants)
    requires IsClamp(a, ceiling, r)
    ensures Tightens(a, r)
  {
    forall q | q in r.permissions ensures exists p :: p in a.permissions && TightenedFrom(p, a.stored, q, r.stored) {
      var p := ClampOrigin(a, ceiling, r, q);
      assert TightenedFrom(p, a.stored, q, r.stored);
    }
  }

  lemma ClampOrigin(a: Grants, ceiling: Grants, r: Grants, q: Permission) returns (p: Permission)
    requires IsClamp(a, ceiling, r) && q in r.permissions
    ensures p in a.permissions && Clamped(p, ceiling.permissions) == Some(q)
    ensures TightenedFrom(p, a.stored, q, r.stored)
  {
    p := ClampPreimage(a.permissions, ceiling.permissions, q);
    if q.maxBudget.Some? {
      ClampedCounter(a, ceiling, r, q, p);
    }
  }

  lemma ClampPreimage(offered: set<Permission>, ceiling: set<Permission>, q: Permission) returns (p: Permission)
    requires q in ClampedAll(offered, ceiling)
    ensures p in offered && Clamped(p, ceiling) == Some(q)
    ensures q == p.(maxBudget := q.maxBudget)
    ensures p.maxBudget.Some? ==> q.maxBudget.Some? && q.maxBudget.value <= p.maxBudget.value
  {
    p :| p in offered && Clamped(p, ceiling).Some? && Clamped(p, ceiling).value == q;
  }

  lemma ClampedCounter(a: Grants, ceiling: Grants, r: Grants, q: Permission, p: Permission)
    requires IsClamp(a, ceiling, r) && q in r.permissions && q.maxBudget.Some? && Key(p) == Key(q)
    ensures 0 <= Claimed(q, r.stored) <= CappedRemaining(p, q.maxBudget.value, a.stored)
  {
    var s := CounterSource(a, ceiling, r, q);
    CapsBelow(a, ceiling.permissions, s, Key(q), r.stored[Key(q)], p, q.maxBudget.value);
  }

  lemma CounterSource(a: Grants, ceiling: Grants, r: Grants, q: Permission) returns (s: Permission)
    requires IsClamp(a, ceiling, r) && q in r.permissions && q.maxBudget.Some?
    ensures Key(q) in r.stored && CapsTo(a, ceiling.permissions, s, Key(q), r.stored[Key(q)])
  {
    s :| CapsTo(a, ceiling.permissions, s, Key(q), r.stored[Key(q)]);
  }

  lemma CapsBelow(a: Grants, ceiling: set<Permission>, s: Permission, k: string, v: int, p: Permission, cap: nat)
    requires CapsTo(a, ceiling, s, k, v) && Key(p) == k
    ensures 0 <= Min(v, cap) <= CappedRemaining(p, cap, a.stored)
  {}

  // ---- composing containment ----

  /** `t`, taken from an authority with counters `stored`, limits a request no more than `r` does. */
  predicate NoTighter(t: Permission, r: Permission, stored: map<string, int>) {
    t.maxBudget.Some? ==>
      && r.maxBudget.Some?
      && r.maxBudget.value <= t.maxBudget.value
      && Claimed(r, stored) <= Remaining(t, stored)
  }

  /**
   Wherever two permissions that govern something overlap, the one that governs
   the narrower requests is no tighter than the one that governs the wider.
   */
  ghost predicate Coherent(c: Grants) {
    forall r, t :: IsMatch(c.permissions, r, r) && IsMatch(c.permissions, t, t) && Covers(r, t)
                   ==> NoTighter(t, r, c.stored)
  }

  lemma NarrowerGovernorNoTighter(c: Grants, wide: Permission, narrow: Permission, r: Permission, t: Permission)
    requires Coherent(c) && Covers(wide, narrow)
    requires IsMatch(c.permissions, wide, r) && IsMatch(c.permissions, narrow, t)
    ensures NoTighter(t, r, c.stored)
  {
    MatchGovernsItself(c.permissions, wide, r);
    MatchGovernsItself(c.permissions, narrow, t);
    if !Covers(r, t) {
      assert IsMatch(c.permissions, narrow, r);
      MatchUnique(c.permissions, narrow, r, t);
    }
  }

  // ---- what containment means for an offer, and for requests ----

  /**
   One metered permission is held exactly when the governing permission is
   unlimited, or has at least its ceiling and at least the units it can claim: no
   more than its own ceiling, whatever counter comes with it.
   */
  lemma MeteredOfferExactly(source: Grants, name: string, scope: string, most: nat, left: int, m: Permission)
    requires IsMatch(source.permissions, Permission(name, scope, Some(most)), m)
    ensures
      SubsetOf(Grants({Permission(name, scope, Some(most))}, map[name + ":" + scope := left]), source)
      <==>
      || m.maxBudget.None?
      || (most <= m.maxBudget.value && (left <= Remaining(m, source.stored) || most <= Remaining(m, source.stored)))
  {
    var p := Permission(name, scope, Some(most));
    var offer := Grants({p}, map[name + ":" + scope := left]);
    MatchIs(source.permissions, p, m);
    assert Key(p) == name + ":" + scope;
    assert SubsetOf(offer, source) <==> Contained(p, offer.stored, source);
  }

  /** An unlimited permission is held exactly when the governing permission is unlimited. */
  lemma UnlimitedOfferExactly(source: Grants, p: Permission, stored: map<string, int>)
    requires p.maxBudget.None?
    ensures SubsetOf(Grants({p}, stored), source) <==>
              Match(source.permissions, p).Some? && Match(source.permissions, p).value.maxBudget.None?
  {
    assert SubsetOf(Grants({p}, stored), source) <==> Contained(p, stored, source);
  }

  /** Whatever a contained authority can do its container can do. */
  lemma ContainedCanNoMore(a: Grants, b: Grants, req: Permission)
    requires SubsetOf(a, b) && Can(a, req)
    ensures Can(b, req)
  {
    var p :| p in a.permissions && Covers(p, req);
    assert Contained(p, a.stored, b);
    CoversTransitive(Match(b.permissions, p).value, p, req);
  }

  /** And what a contained authority has units to claim for, a coherent container has units for. */
  lemma ContainedPaysNoMore(a: Grants, b: Grants, req: Permission, g: Permission)
    requires SubsetOf(a, b) && Coherent(b) && IsMatch(a.permissions, req, g)
    requires g.maxBudget.Some? ==> Claimed(g, a.stored) > 0
    ensures HasBudget(b, req)
  {
    assert Contained(g, a.stored, b);
    var r := Match(b.permissions, g).value;
    CoversTransitive(r, g, req);
    var t := Match(b.permissions, req).value;
    NarrowerGovernorNoTighter(b, g, req, r, t);
  }

  lemma SubsetTransitive(a: Grants, b: Grants, c: Grants)
    requires Coherent(c) && SubsetOf(a, b) && SubsetOf(b, c)
    ensures SubsetOf(a, c)
  {
    forall p | p in a.permissions ensures Contained(p, a.stored, c) {
      assert Contained(p, a.stored, b);
      var q := Match(b.permissions, p).value;
      assert Contained(q, b.stored, c);
      var r := Match(c.permissions, q).value;
      CoversTransitive(r, q, p);
      var t := Match(c.permissions, p).value;
      NarrowerGovernorNoTighter(c, q, p, r, t);
    }
  }

  /** Containment composes through a top authority exactly when that authority is coherent. */
  lemma TransitivityExactly(c: Grants)
    ensures Coherent(c) <==> forall a, b :: SubsetOf(a, b) && SubsetOf(b, c) ==> SubsetOf(a, c)
  {
    if Coherent(c) {
      forall a, b | SubsetOf(a, b) && SubsetOf(b, c) ensures SubsetOf(a, c) {
        SubsetTransitive(a, b, c);
      }
    } else {
      var r, t :| IsMatch(c.permissions, r, r) && IsMatch(c.permissions, t, t) && Covers(r, t)
                  && !NoTighter(t, r, c.stored);
      var a, b := TransitivityBreaks(c, r, t);
    }
  }

  lemma TransitivityBreaks(c: Grants, r: Permission, t: Permission) returns (a: Grants, b: Grants)
    requires IsMatch(c.permissions, r, r) && IsMatch(c.permissions, t, t) && Covers(r, t)
    requires !NoTighter(t, r, c.stored)
    ensures SubsetOf(a, b) && SubsetOf(b, c) && !SubsetOf(a, c)
  {
    var p := t.(maxBudget := r.maxBudget);
    b := Grants({r}, c.stored);
    a := Grants({p}, if r.maxBudget.Some? then map[Key(p) := Claimed(r, c.stored)] else map[]);
    MatchIs(c.permissions, r, r);
    assert IsMatch({r}, p, r) by { SortsBeforeTotal(r, r); }
    MatchIs({r}, p, r);
    MatchIs(c.permissions, t, t);
    MatchIgnoresRequestBudget(c.permissions, t, r.maxBudget);
    assert !Contained(p, a.stored, c);
  }

  /** Ten units on every scope, and one on scope "x" alone. */
  const SPLIT := Grants({Permission("read", WILDCARD, Some(10)), Permission("read", "x", Some(1))}, map[])

  /**
   Containment is not transitive: all ten units may be handed on as a wildcard,
   and from there on scope "x", where the first holder has only one.
   */
  lemma SplitAuthorityIsExceeded()
    ensures
      var wildcard := Grants({Permission("read", WILDCARD, Some(10))}, map[]);
      var narrow := Grants({Permission("read", "x", Some(10))}, map[]);
      SubsetOf(narrow, wildcard) && SubsetOf(wildcard, SPLIT) && !SubsetOf(narrow, SPLIT)
    ensures !Coherent(SPLIT)
  {
    var w, x, p := Permission("read", WILDCARD, Some(10)), Permission("read", "x", Some(1)), Permission("read", "x", Some(10));
    var wildcard, narrow := Grants({w}, map[]), Grants({p}, map[]);
    SortsBeforeTotal(w, w);
    SortsBeforeTotal(x, x);
    MatchIs(SPLIT.permissions, w, w);
    MatchIs(SPLIT.permissions, p, x);
    MatchIs(wildcard.permissions, p, w);
    assert !Contained(p, narrow.stored, SPLIT);
    if Coherent(SPLIT) {
      SubsetTransitive(narrow, wildcard, SPLIT);
    }
  }

  /** No request is covered by two permissions of `g`. */
  ghost predicate NonOverlapping(g: Grants) {
    forall p, q, req :: p in g.permissions && q in g.permissions && Covers(p, req) && Covers(q, req) ==> p == q
  }

  lemma NonOverlappingIsCoherent(g: Grants)
    requires NonOverlapping(g)
    ensures Coherent(g) && SubsetOf(g, g)
  {}

  // ---- one delegation hop ----

  /** No permission that governs something has a negative counter. */
  ghost predicate NonNegative(f: Grants) {
    forall m :: IsMatch(f.permissions, m, m) && m.maxBudget.Some? ==> Remaining(m, f.stored) >= 0
  }

  lemma ClampWithinSource(offer: Grants, source: Grants, ceiling: Grants, r: Grants)
    requires NonNegative(source) && SubsetOf(offer, source) && IsClamp(offer, ceiling, r)
    ensures SubsetOf(r, source)
  {
    ClampTightens(offer, ceiling, r);
    TighteningStaysContained(offer, source, r);
  }

  lemma TighteningStaysContained(offer: Grants, source: Grants, r: Grants)
    requires NonNegative(source) && SubsetOf(offer, source) && Tightens(offer, r)
    ensures SubsetOf(r, source)
  {
    forall q | q in r.permissions ensures Contained(q, r.stored, source) {
      var p :| p in offer.permissions && TightenedFrom(p, offer.stored, q, r.stored);
      assert Contained(p, offer.stored, source);
      TightenedStaysContained(source, p, offer.stored, q, r.stored);
    }
  }

  lemma TightenedStaysContained(source: Grants, p: Permission, before: map<string, int>, q: Permission, after: map<string, int>)
    requires NonNegative(source) && Contained(p, before, source) && TightenedFrom(p, before, q, after)
    ensures Contained(q, after, source)
  {
    MatchIgnoresRequestBudget(source.permissions, p, q.maxBudget);
    var m := Match(source.permissions, p).value;
    MatchGovernsItself(source.permissions, p, m);
  }

  /** `r` is what some ceiling may leave of some offer that `source` accepts as its own. */
  ghost predicate IsAcceptedClamp(source: Grants, offer: Grants, r: Grants) {
    SubsetOf(offer, source) && exists ceiling :: IsClamp(offer, ceiling, r)
  }

  ghost predicate ClampsStayWithin(source: Grants) {
    forall offer, r :: IsAcceptedClamp(source, offer, r) ==> SubsetOf(r, source)
  }

  /** Clamping an accepted offer stays within its source exactly when the source has no negative counter. */
  lemma ClampWithinSourceExactly(source: Grants)
    ensures NonNegative(source) <==> ClampsStayWithin(source)
  {
    if NonNegative(source) {
      forall offer, r | IsAcceptedClamp(source, offer, r) ensures SubsetOf(r, source) {
        AcceptedClampWithin(source, offer, r);
      }
    } else {
      var m :| IsMatch(source.permissions, m, m) && m.maxBudget.Some? && Remaining(m, source.stored) < 0;
      MeteredOfferAccepted(source, m);
      NegativeCounterEscapes(source, m);
    }
  }

  lemma AcceptedClampWithin(source: Grants, offer: Grants, r: Grants)
    requires NonNegative(source) && IsAcceptedClamp(source, offer, r)
    ensures SubsetOf(r, source)
  {
    var ceiling :| IsClamp(offer, ceiling, r);
    ClampWithinSource(offer, source, ceiling, r);
  }

  /** The offer that hands over the governing permission `m` with whatever is left of it. */
  function OfferOf(source: Grants, m: Permission): Grants {
    Grants({m}, source.stored)
  }

  function ClampOfOffer(source: Grants, m: Permission): Grants
    requires m.maxBudget.Some?
  {
    Grants({m}, map[Key(m) := CappedRemaining(m, m.maxBudget.value, source.stored)])
  }

  lemma MeteredOfferAccepted(source: Grants, m: Permission)
    requires IsMatch(source.permissions, m, m) && m.maxBudget.Some?
    ensures IsAcceptedClamp(source, OfferOf(source, m), ClampOfOffer(source, m))
  {
    OfferIsHeld(source, m);
    OfferIsClamped(source, m);
  }

  lemma OfferIsHeld(source: Grants, m: Permission)
    requires IsMatch(source.permissions, m, m)
    ensures SubsetOf(OfferOf(source, m), source)
  {
    MatchIs(source.permissions, m, m);
  }

  lemma OfferIsClamped(source: Grants, m: Permission)
    requires m.maxBudget.Some?
    ensures IsClamp(OfferOf(source, m), Grants({m}, map[]), ClampOfOffer(source, m))
  {
    var offer, r := OfferOf(source, m), ClampOfOffer(source, m);
    assert IsMatch({m}, m, m) by { SortsBeforeTotal(m, m); }
    MatchIs({m}, m, m);
    assert Clamped(m, {m}) == Some(m);
    assert CapsTo(offer, {m}, m, Key(m), r.stored[Key(m)]);
    assert r.permissions == ClampedAll(offer.permissions, {m});
  }

  lemma NegativeCounterEscapes(source: Grants, m: Permission)
    requires IsMatch(source.permissions, m, m) && m.maxBudget.Some? && Remaining(m, source.stored) < 0
    ensures !SubsetOf(ClampOfOffer(source, m), source)
  {
    MatchIs(source.permissions, m, m);
    assert !Contained(m, ClampOfOffer(source, m).stored, source);
  }

  /** Every permission of the ceiling that governs something still has its whole budget. */
  ghost predicate FullCeiling(c: Grants) {
    forall m :: IsMatch(c.permissions, m, m) && m.maxBudget.Some? ==> Remaining(m, c.stored) >= m.maxBudget.value
  }

  lemma ClampWithinCeiling(offer: Grants, ceiling: Grants, r: Grants)
    requires FullCeiling(ceiling) && IsClamp(offer, ceiling, r)
    ensures SubsetOf(r, ceiling)
  {
    forall q | q in r.permissions ensures Contained(q, r.stored, ceiling) {
      var p := ClampOrigin(offer, ceiling, r, q);
      MatchIgnoresRequestBudget(ceiling.permissions, p, q.maxBudget);
      var m := Match(ceiling.permissions, p).value;
      MatchGovernsItself(ceiling.permissions, p, m);
    }
  }

  /** Clamping lands inside the ceiling, for every offer, exactly when the ceiling's own counters are full. */
  lemma ClampWithinCeilingExactly(c: Grants)
    ensures FullCeiling(c) <==> forall offer, r :: IsClamp(offer, c, r) ==> SubsetOf(r, c)
  {
    if FullCeiling(c) {
      forall offer, r | IsClamp(offer, c, r) ensures SubsetOf(r, c) {
        ClampWithinCeiling(offer, c, r);
      }
    } else {
      var m :| IsMatch(c.permissions, m, m) && m.maxBudget.Some? && Remaining(m, c.stored) < m.maxBudget.value;
      var offer := Grants({m}, map[]);
      var r := Grants({m}, map[Key(m) := m.maxBudget.value]);
      MatchIs(c.permissions, m, m);
      assert Clamped(m, c.permissions) == Some(m);
      assert CapsTo(offer, c.permissions, m, Key(m), m.maxBudget.value);
      assert IsClamp(offer, c, r);
      assert !Contained(m, r.stored, c);
    }
  }

  /** A ceiling of five units, of which two are left, lets an offer of five through. */
  lemma UsedCeilingIsExceeded()
    ensures
      var five := Permission("read", "x", Some(5));
      var ceiling, offer := Grants({five}, map[Key(five) := 2]), Grants({five}, map[]);
      var r := Grants({five}, map[Key(five) := 5]);
      IsClamp(offer, ceiling, r) && !SubsetOf(r, ceiling)
  {
    var five := Permission("read", "x", Some(5));
    var ceiling, offer := Grants({five}, map[Key(five) := 2]), Grants({five}, map[]);
    var r := Grants({five}, map[Key(five) := 5]);
    SortsBeforeTotal(five, five);
    MatchIs({five}, five, five);
    assert Clamped(five, ceiling.permissions) == Some(five);
    assert CapsTo(offer, ceiling.permissions, five, Key(five), 5);
    assert ClampedAll(offer.permissions, ceiling.permissions) == {five};
    assert !Contained(five, r.stored, ceiling);
  }

  // ---- effective authority under restrictions ----

  /** The base permissions no active restriction touches. */
  ghost function Untouched(base: Grants, active: set<Permission>): set<Permission> {
    set p | p in base.permissions && forall a :: a in active ==> !Covers(p, a)
  }

  /** `r` is a possible effective authority of `base` under the `active` restrictions. */
  ghost predicate IsEffective(base: Grants, active: set<Permission>, r: Grants) {
    if active == {} then r == base else IsReduced(base, Untouched(base, active), r)
  }

  /** The second coverage filter, inside the reduction, resurrects nothing the first one removed. */
  lemma EffectiveIsExactlyUntouched(base: Grants, active: set<Permission>, r: Grants)
    requires IsEffective(base, active, r)
    ensures r.permissions == Untouched(base, active)
    ensures Shrinks(base, r)
    ensures UnstoredCountersAgree(base, Untouched(base, active)) ==> SameRemaining(base, r)
  {
    if active == {} {
      assert Untouched(base, active) == base.permissions;
    } else {
      var untouched := Untouched(base, active);
      assert Kept(base, untouched) == untouched by {
        forall p | p in untouched ensures Allowed(p, untouched) {
          assert Covers(p, p);
        }
        forall p | p in base.permissions && Allowed(p, untouched) ensures p in untouched {
          var a :| a in untouched && Covers(a, p);
          forall x | x in active ensures !Covers(p, x) {
            if Covers(p, x) {
              CoversTransitive(a, p, x);
            }
          }
        }
      }
      ReducedShrinks(base, untouched, r);
      ReductionKeepsCountersExactly(base, untouched);
    }
  }

  /** More restrictions leave no further permission and cover no further request. Budgets are another matter. */
  lemma EffectiveAntitone(base: Grants, few: set<Permission>, many: set<Permission>, r: Grants, s: Grants, req: Permission)
    requires few <= many && IsEffective(base, few, r) && IsEffective(base, many, s)
    ensures s.permissions <= r.permissions
    ensures Can(s, req) ==> Can(r, req)
  {}

  /** The permission that governs a request can only give way to one that is no more restrictive. */
  lemma RestrictionsOnlyLoosen(base: Grants, few: set<Permission>, many: set<Permission>, req: Permission)
    requires few <= many && Match(Untouched(base, many), req).Some?
    ensures Match(Untouched(base, few), req).Some?
    ensures SortsBefore(Match(Untouched(base, few), req).value, Match(Untouched(base, many), req).value)
  {}

  /** Outside the active restrictions a permission that satisfies `u` governs the request. */
  ghost predicate Answers(base: Grants, active: set<Permission>, req: Permission, u: Permission -> bool) {
    var m := Match(Untouched(base, active), req);
    m.Some? && u(m.value)
  }

  ghost predicate Antitone(base: Grants, u: Permission -> bool) {
    forall few, many, req :: few <= many && Answers(base, many, req, u) ==> Answers(base, few, req, u)
  }

  ghost function OnScope(perms: set<Permission>, scope: string): set<Permission> {
    set p | p in perms && p.scope == scope
  }

  /**
   The wildcard `w` fails `u` and governs the scope of `x`, and `x` satisfies `u`
   and would govern it if there were no wildcards. Any restriction under the
   same name removes the wildcards.
   */
  ghost predicate Masks(perms: set<Permission>, w: Permission, x: Permission, u: Permission -> bool) {
    && w.scope == WILDCARD && !u(w) && IsMatch(perms, x, w)
    && x.scope != WILDCARD && u(x) && IsMatch(OnScope(perms, x.scope), x, x)
  }

  ghost predicate NothingMasked(perms: set<Permission>, u: Permission -> bool) {
    forall w, x :: !Masks(perms, w, x, u)
  }

  /**
   Whatever is asked of the governing permission, restrictions never bring it
   about, for every request, exactly when no wildcard masks it.
   */
  lemma AntitoneExactly(base: Grants, u: Permission -> bool)
    ensures Antitone(base, u) <==> NothingMasked(base.permissions, u)
  {
    if NothingMasked(base.permissions, u) {
      forall few, many, req | few <= many && Answers(base, many, req, u) ensures Answers(base, few, req, u) {
        UnmaskedStays(base, few, many, req, u);
      }
    } else {
      var w, x :| Masks(base.permissions, w, x, u);
      MaskLifted(base, w, x, u);
    }
  }

  lemma UnmaskedStays(base: Grants, few: set<Permission>, many: set<Permission>, req: Permission, u: Permission -> bool)
    requires few <= many && Answers(base, many, req, u) && NothingMasked(base.permissions, u)
    ensures Answers(base, few, req, u)
  {
    RestrictionsOnlyLoosen(base, few, many, req);
    var w, x := Match(Untouched(base, few), req).value, Match(Untouched(base, many), req).value;
    if w != x && !u(w) {
      GovernorGaveWay(base, few, many, req, w, x);
      assert Masks(base.permissions, w, x, u);
    }
  }

  /** The governor changed, so the first was a wildcard of an unrestricted name and the second is exact. */
  lemma GovernorGaveWay(base: Grants, few: set<Permission>, many: set<Permission>, req: Permission, w: Permission, x: Permission)
    requires few <= many && w != x
    requires IsMatch(Untouched(base, few), req, w) && IsMatch(Untouched(base, many), req, x)
    ensures w.scope == WILDCARD && IsMatch(base.permissions, x, w)
    ensures x.scope != WILDCARD && IsMatch(OnScope(base.permissions, x.scope), x, x)
  {
    if w in Untouched(base, many) {
      SortsBeforeAntisymmetric(w, x);
    }
    var a :| a in many && Covers(w, a);
    assert Covers(w, req) && Covers(x, req);
    assert x.scope != WILDCARD;
    assert w.scope == WILDCARD;
    forall q | q in base.permissions && Covers(q, x) ensures SortsBefore(w, q) {
      assert q in Untouched(base, few);
    }
    forall q | q in OnScope(base.permissions, x.scope) && Covers(q, x) ensures SortsBefore(x, q) {
      assert q in Untouched(base, many);
    }
  }

  /** A restriction on the name as a whole removes the wildcards and nothing else. */
  lemma MaskLifted(base: Grants, w: Permission, x: Permission, u: Permission -> bool)
    requires Masks(base.permissions, w, x, u)
    ensures !Antitone(base, u)
  {
    var none, all: set<Permission> := {}, {Permission(x.name, WILDCARD, None)};
    assert Untouched(base, none) == base.permissions;
    MatchIs(base.permissions, x, w);
    assert IsMatch(Untouched(base, all), x, x);
    MatchIs(Untouched(base, all), x, x);
    assert Answers(base, all, x, u) && !Answers(base, none, x, u);
  }

  /** The permission is unlimited or has a unit left. */
  function Usable(stored: map<string, int>): Permission -> bool {
    (p: Permission) => p.maxBudget.Some? ==> Remaining(p, stored) > 0
  }

  /** What the restrictions leave, with the counters there were. */
  ghost function LeftBy(base: Grants, active: set<Permission>): Grants {
    Grants(Untouched(base, active), base.stored)
  }

  /** A restriction never gives a request budget exactly when no used-up wildcard masks a usable permission. */
  lemma RestrictionsNeverGiveBudgetExactly(base: Grants)
    ensures
      (forall few, many, req :: few <= many && HasBudget(LeftBy(base, many), req) ==> HasBudget(LeftBy(base, few), req))
      <==> NothingMasked(base.permissions, Usable(base.stored))
  {
    AntitoneExactly(base, Usable(base.stored));
    forall active, req ensures HasBudget(LeftBy(base, active), req) <==> Answers(base, active, req, Usable(base.stored)) {}
  }

  const READ_ALL := Permission("read", WILDCARD, Some(1))
  const READ_X := Permission("read", "x", None)
  const ON_Y := {Permission("read", "y", None)}

  /** One unit on every scope, used up, before an unlimited permission on scope "x". */
  const MASKED := Grants({READ_ALL, READ_X}, map[Key(READ_ALL) := 0])

  lemma MaskedGovernors()
    ensures Match(MASKED.permissions, READ_X) == Some(READ_ALL)
    ensures Untouched(MASKED, ON_Y) == {READ_X} && Match({READ_X}, READ_X) == Some(READ_X)
  {
    SortsBeforeTotal(READ_ALL, READ_ALL);
    SortsBeforeTotal(READ_X, READ_X);
    MatchIs(MASKED.permissions, READ_X, READ_ALL);
    MatchIs({READ_X}, READ_X, READ_X);
  }

  /** A restriction on scope "y" makes scope "x" usable, and the effective authority exceeds the one it came from. */
  lemma RestrictionGivesBudget(s: Grants)
    requires IsEffective(MASKED, ON_Y, s)
    ensures !HasBudget(MASKED, READ_X) && HasBudget(s, READ_X)
    ensures !SubsetOf(s, MASKED)
  {
    MaskedGovernors();
    EffectiveIsExactlyUntouched(MASKED, ON_Y, s);
    assert s.permissions == {READ_X};
    assert READ_X in s.permissions && !Contained(READ_X, s.stored, MASKED);
  }
}
