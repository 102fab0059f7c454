/**
 Permissions, the coverage relation between them, and the deterministic choice
 of one permission among several that cover the same request.
 */
module Permissions {
  import opened Prelude

  datatype Permission = Permission(name: string, scope: string, maxBudget: Option<nat>)

  const WILDCARD: string := "*"

  /** `p` authorises `r`: same name, and a wildcard or equal scope. Budgets play no part. */
  predicate Covers(p: Permission, r: Permission) {
    p.name == r.name && (p.scope == WILDCARD || p.scope == r.scope)
  }

  /** The string under which a permission's counter is stored. It is not injective when names hold colons. */
  function Key(p: Permission): string {
    p.name + ":" + p.scope
  }

  /** A wildcard covers every scope of its name, anything else its own scope only, and nothing covers another name. */
  lemma CoverageExactly(name: string, scope: string, b: Option<nat>, r: Permission)
    ensures Covers(Permission(name, WILDCARD, b), r) <==> r.name == name
    ensures scope != WILDCARD ==> (Covers(Permission(name, scope, b), r) <==> r.name == name && r.scope == scope)
    ensures WILDCARD == "*"
  {}

  lemma CoversTransitive(p: Permission, q: Permission, r: Permission)
    requires Covers(p, q) && Covers(q, r)
    ensures Covers(p, r)
  {}

  // ---- the sort order used to choose between candidates ----

  /** Lexicographic order on strings, by code point. */
  predicate StringLeq(a: string, b: string) {
    a == "" || (b != "" && (a[0] < b[0] || (a[0] == b[0] && StringLeq(a[1..], b[1..]))))
  }

  lemma {:induction false} StringLeqTotal(a: string, b: string)
    ensures StringLeq(a, b) || StringLeq(b, a)
  {
    if a != "" && b != "" && a[0] == b[0] {
      StringLeqTotal(a[1..], b[1..]);
    }
  }

  lemma {:induction false} StringLeqAntisymmetric(a: string, b: string)
    requires StringLeq(a, b) && StringLeq(b, a)
    ensures a == b
  {
    if a != "" && b != "" {
      StringLeqAntisymmetric(a[1..], b[1..]);
      assert a == [a[0]] + a[1..] && b == [b[0]] + b[1..];
    }
  }

  lemma {:induction false} StringLeqTransitive(a: string, b: string, c: string)
    requires StringLeq(a, b) && StringLeq(b, c)
    ensures StringLeq(a, c)
  {
    if a != "" && b != "" && c != "" && a[0] == b[0] == c[0] {
      StringLeqTransitive(a[1..], b[1..], c[1..]);
    }
  }

  /** Comparison of the sort keys `(unbounded?, budget, name, scope)`: most restrictive first. */
  predicate SortsBefore(p: Permission, q: Permission) {
    if p.maxBudget != q.maxBudget then
      p.maxBudget.Some? && (q.maxBudget.None? || p.maxBudget.value < q.maxBudget.value)
    else if p.name != q.name then
      StringLeq(p.name, q.name)
    else
      StringLeq(p.scope, q.scope)
  }

  lemma SortsBeforeTotal(p: Permission, q: Permission)
    ensures SortsBefore(p, q) || SortsBefore(q, p)
  {
    StringLeqTotal(p.name, q.name);
    StringLeqTotal(p.scope, q.scope);
  }

  lemma SortsBeforeAntisymmetric(p: Permission, q: Permission)
    requires SortsBefore(p, q) && SortsBefore(q, p)
    ensures p == q
  {
    if p.name != q.name {
      StringLeqAntisymmetric(p.name, q.name);
    } else {
      StringLeqAntisymmetric(p.scope, q.scope);
    }
  }

  lemma SortsBeforeTransitive(p: Permission, q: Permission, r: Permission)
    requires SortsBefore(p, q) && SortsBefore(q, r)
    ensures SortsBefore(p, r)
  {
    if p.maxBudget == q.maxBudget == r.maxBudget {
      if p.name == q.name == r.name {
        StringLeqTransitive(p.scope, q.scope, r.scope);
      } else if p.name != q.name && q.name != r.name {
        StringLeqTransitive(p.name, q.name, r.name);
        if p.name == r.name {
          StringLeqAntisymmetric(p.name, q.name);
        }
      }
    }
  }

  // ---- the chosen permission ----

  /** `m` covers `req` and sorts before every other member of `perms` that does. */
  ghost predicate IsMatch(perms: set<Permission>, req: Permission, m: Permission) {
    && m in perms
    && Covers(m, req)
    && forall q :: q in perms && Covers(q, req) ==> SortsBefore(m, q)
  }

  lemma MatchUnique(perms: set<Permission>, req: Permission, m: Permission, n: Permission)
    requires IsMatch(perms, req, m) && IsMatch(perms, req, n)
    ensures m == n
  {
    SortsBeforeAntisymmetric(m, n);
  }

  lemma {:induction false} MatchExists(perms: set<Permission>, req: Permission) returns (m: Permission)
    requires exists p :: p in perms && Covers(p, req)
    ensures IsMatch(perms, req, m)
    decreases |perms|
  {
    var p :| p in perms && Covers(p, req);
    var rest := perms - {p};
    SortsBeforeTotal(p, p);
    if exists q :: q in rest && Covers(q, req) {
      var n := MatchExists(rest, req);
      SortsBeforeTotal(n, p);
      if SortsBefore(n, p) {
        m := n;
      } else {
        m := p;
        forall q | q in perms && Covers(q, req) ensures SortsBefore(p, q) {
          if q != p {
            SortsBeforeTransitive(p, n, q);
          }
        }
      }
    } else {
      m := p;
    }
  }

  ghost predicate NoneCovers(perms: set<Permission>, req: Permission) {
    forall p :: p in perms ==> !Covers(p, req)
  }

  /** The permission that governs `req`, whatever order the set is enumerated in. */
  ghost function Match(perms: set<Permission>, req: Permission): (m: Option<Permission>)
    ensures m.Some? ==> IsMatch(perms, req, m.value)
    ensures m.None? ==> NoneCovers(perms, req)
  {
    if exists p :: p in perms && Covers(p, req) then
      var m := MatchWitness(perms, req);
      Some(m)
    else
      None
  }

  ghost function MatchWitness(perms: set<Permission>, req: Permission): (m: Permission)
    requires exists p :: p in perms && Covers(p, req)
    ensures IsMatch(perms, req, m)
  {
    assert exists m :: IsMatch(perms, req, m) by {
      var m := MatchExists(perms, req);
    }
    var m :| IsMatch(perms, req, m);
    m
  }

  /** `Match` is the only value with the defining property, so any way of computing the minimum agrees. */
  lemma MatchIs(perms: set<Permission>, req: Permission, m: Permission)
    requires IsMatch(perms, req, m)
    ensures Match(perms, req) == Some(m)
  {
    MatchUnique(perms, req, m, Match(perms, req).value);
  }

  /** The budget a request carries never influences which permission governs it. */
  lemma MatchIgnoresRequestBudget(perms: set<Permission>, req: Permission, b: Option<nat>)
    ensures Match(perms, req.(maxBudget := b)) == Match(perms, req)
  {
    var other := req.(maxBudget := b);
    if Match(perms, req).Some? {
      var m := Match(perms, req).value;
      assert IsMatch(perms, other, m);
      MatchIs(perms, other, m);
    } else {
      var n := Match(perms, other);
      assert n.Some? ==> Covers(n.value, req);
    }
  }

  /** Of all that cover a request the governing permission is the most restrictive: metered before unlimited, fewer units first. */
  lemma GovernorIsMostRestrictive(perms: set<Permission>, req: Permission, q: Permission)
    requires q in perms && q.name == req.name && (q.scope == "*" || q.scope == req.scope) && q.maxBudget.Some?
    ensures
      var m := Match(perms, req);
      && m.Some? && m.value in perms && m.value.name == req.name && (m.value.scope == "*" || m.value.scope == req.scope)
      && m.value.maxBudget.Some? && m.value.maxBudget.value <= q.maxBudget.value
  {
    assert Covers(q, req);
    assert SortsBefore(Match(perms, req).value, q);
  }

  /** A permission that governs some request governs itself as a request. */
  lemma MatchGovernsItself(perms: set<Permission>, req: Permission, m: Permission)
    requires IsMatch(perms, req, m)
    ensures IsMatch(perms, m, m)
  {}

  /** A narrower request is governed by a permission at least as restrictive. */
  lemma MatchNarrows(perms: set<Permission>, wide: Permission, narrow: Permission, w: Permission, n: Permission)
    requires Covers(wide, narrow)
    requires IsMatch(perms, wide, w) && IsMatch(perms, narrow, n)
    ensures SortsBefore(n, w)
  {}
}
