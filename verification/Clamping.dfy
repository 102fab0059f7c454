/** What clamping an offer to a ceiling leaves: no less than both ends allow. */
module Clamping {
  import opened Prelude
  import opened Permissions
  import opened Authorities

  /** No two permissions of `g` share a counter key. */
  ghost predicate KeysApart(g: Grants) {
    forall p, q :: p in g.permissions && q in g.permissions && Key(p) == Key(q) ==> p == q
  }

  /** A budget of `n` units fits under an optional ceiling. */
  predicate Fits(n: int, ceiling: Option<nat>) {
    ceiling.Some? ==> n <= ceiling.value
  }

  /** `q` has the name and scope of `p`, and a budget that fits both `p` and `c` and is that of one of them. */
  predicate IsMeet(p: Permission, c: Permission, q: Permission) {
    && q.name == p.name && q.scope == p.scope
    && (q.maxBudget.None? <==> p.maxBudget.None? && c.maxBudget.None?)
    && (q.maxBudget.Some? ==> Fits(q.maxBudget.value, p.maxBudget) && Fits(q.maxBudget.value, c.maxBudget))
    && (q.maxBudget == p.maxBudget || q.maxBudget == c.maxBudget)
  }

  /** Whatever fits both fits the meet. */
  lemma MeetIsGreatest(p: Permission, c: Permission, q: Permission, n: int)
    requires IsMeet(p, c, q)
    ensures Fits(n, q.maxBudget) <==> Fits(n, p.maxBudget) && Fits(n, c.maxBudget)
  {}

  lemma ClampedIsMeet(ceiling: set<Permission>, p: Permission, c: Permission)
    requires IsMatch(ceiling, p, c)
    ensures Clamped(p, ceiling).Some? && IsMeet(p, c, Clamped(p, ceiling).value)
  {
    MatchIs(ceiling, p, c);
  }

  /**
   Each offered permission that the ceiling authorises is kept under its own name
   and scope with the largest budget that fits both, and nothing else is kept.
   */
  lemma ClampKeepsWhatFits(offer: Grants, ceiling: Grants, r: Grants)
    requires IsClamp(offer, ceiling, r)
    ensures forall p, c :: p in offer.permissions && IsMatch(ceiling.permissions, p, c) ==>
              exists q :: q in r.permissions && IsMeet(p, c, q)
    ensures forall q :: q in r.permissions ==>
              exists p, c :: p in offer.permissions && IsMatch(ceiling.permissions, p, c) && IsMeet(p, c, q)
  {
    forall p, c | p in offer.permissions && IsMatch(ceiling.permissions, p, c)
      ensures exists q :: q in r.permissions && IsMeet(p, c, q)
    {
      ClampedIsMeet(ceiling.permissions, p, c);
      assert Clamped(p, ceiling.permissions).value in r.permissions;
    }
    forall q | q in r.permissions
      ensures exists p, c :: p in offer.permissions && IsMatch(ceiling.permissions, p, c) && IsMeet(p, c, q)
    {
      var p := ClampOrigin(offer, ceiling, r, q);
      var c := Match(ceiling.permissions, p).value;
      ClampedIsMeet(ceiling.permissions, p, c);
    }
  }

  /** The smaller of what `p` still had and the new budget, and never below zero. */
  predicate IsMeetCounter(p: Permission, before: map<string, int>, budget: nat, v: int) {
    && 0 <= v <= budget
    && (Key(p) in before ==>
          && (before[Key(p)] >= 0 ==> v <= before[Key(p)])
          && (v == budget || v == before[Key(p)] || (v == 0 && before[Key(p)] < 0)))
    && (Key(p) !in before ==> v == budget)
  }

  /** The counter of a kept permission is the largest that fits what was offered and its new budget. */
  lemma ClampKeepsCounters(offer: Grants, ceiling: Grants, r: Grants, p: Permission, q: Permission)
    requires IsClamp(offer, ceiling, r) && KeysApart(offer)
    requires p in offer.permissions && Clamped(p, ceiling.permissions) == Some(q) && q.maxBudget.Some?
    ensures Key(q) in r.stored && IsMeetCounter(p, offer.stored, q.maxBudget.value, r.stored[Key(q)])
  {
    var s := CounterSource(offer, ceiling, r, q);
    SamePermission(offer, s, p);
    CappedIsMeet(p, q.maxBudget.value, offer.stored);
  }

  lemma SamePermission(offer: Grants, p: Permission, q: Permission)
    requires KeysApart(offer) && p in offer.permissions && q in offer.permissions && Key(p) == Key(q)
    ensures p == q
  {}

  lemma CappedIsMeet(p: Permission, budget: nat, before: map<string, int>)
    ensures IsMeetCounter(p, before, budget, CappedRemaining(p, budget, before))
  {}

  // ---- the greatest authority within both ends ----

  /** What the ceiling authorises of an offered permission, it authorises of it as a whole. */
  ghost predicate AuthorisedWhole(offer: Grants, ceiling: Grants) {
    forall o, req :: o in offer.permissions && Covers(o, req) && Can(ceiling, req) ==> Can(ceiling, o)
  }

  ghost predicate HoldsAllWithinBoth(offer: Grants, ceiling: Grants, r: Grants) {
    forall x :: SubsetOf(x, offer) && SubsetOf(x, ceiling) ==> SubsetOf(x, r)
  }

  /** Counters are stored for metered permissions only. */
  ghost predicate CountersMetered(g: Grants) {
    forall p :: p in g.permissions && p.maxBudget.None? ==> Key(p) !in g.stored
  }

  /**
   The clamp contains everything that offer and ceiling both contain, exactly
   when the ceiling authorises no offered permission in part only: a wildcard
   offered to a ceiling that names one scope is dropped whole.
   */
  lemma ClampIsGreatestExactly(offer: Grants, ceiling: Grants, r: Grants)
    requires IsClamp(offer, ceiling, r) && NonOverlapping(offer) && KeysApart(offer) && CountersMetered(offer)
    requires NonNegative(offer) && NonNegative(ceiling)
    ensures HoldsAllWithinBoth(offer, ceiling, r) <==> AuthorisedWhole(offer, ceiling)
  {
    if AuthorisedWhole(offer, ceiling) {
      forall x | SubsetOf(x, offer) && SubsetOf(x, ceiling) ensures SubsetOf(x, r) {
        forall p | p in x.permissions ensures Contained(p, x.stored, r) {
          assert Contained(p, x.stored, offer) && Contained(p, x.stored, ceiling);
          HeldThroughClamp(offer, ceiling, r, p, x.stored);
        }
      }
    } else {
      var o, req :| o in offer.permissions && Covers(o, req) && Can(ceiling, req) && !Can(ceiling, o);
      DroppedWhole(offer, ceiling, r, o, req);
    }
  }

  lemma HeldThroughClamp(offer: Grants, ceiling: Grants, r: Grants, p: Permission, stored: map<string, int>)
    requires IsClamp(offer, ceiling, r) && NonOverlapping(offer) && KeysApart(offer) && CountersMetered(offer)
    requires AuthorisedWhole(offer, ceiling)
    requires Contained(p, stored, offer) && Contained(p, stored, ceiling)
    ensures Contained(p, stored, r)
  {
    var o, m := Match(offer.permissions, p).value, Match(ceiling.permissions, p).value;
    assert Can(ceiling, p) && Can(ceiling, o);
    var c := Match(ceiling.permissions, o).value;
    ClampedIsMeet(ceiling.permissions, o, c);
    var q := Clamped(o, ceiling.permissions).value;
    OnlyCoverIn(offer, ceiling, r, p, o, q);
    MatchIs(r.permissions, p, q);
    MatchNarrows(ceiling.permissions, o, p, c, m);
    BudgetThroughMeet(o, c, m, q, p);
    if q.maxBudget.Some? {
      ClampKeepsCounters(offer, ceiling, r, o, q);
      CounterThroughMeet(offer, o, p, stored, q.maxBudget.value, r.stored[Key(q)]);
    }
  }

  /** A budget that fits the offered permission and whatever governs the narrower request fits the meet. */
  lemma BudgetThroughMeet(o: Permission, c: Permission, m: Permission, q: Permission, p: Permission)
    requires IsMeet(o, c, q) && SortsBefore(m, c)
    requires o.maxBudget.Some? ==> p.maxBudget.Some? && p.maxBudget.value <= o.maxBudget.value
    requires m.maxBudget.Some? ==> p.maxBudget.Some? && p.maxBudget.value <= m.maxBudget.value
    ensures q.maxBudget.Some? ==> p.maxBudget.Some? && p.maxBudget.value <= q.maxBudget.value
  {}

  lemma CounterThroughMeet(offer: Grants, o: Permission, p: Permission, stored: map<string, int>, budget: nat, v: int)
    requires IsMeetCounter(o, offer.stored, budget, v) && p.maxBudget.Some? && p.maxBudget.value <= budget
    requires o.maxBudget.Some? ==> Claimed(p, stored) <= Remaining(o, offer.stored)
    requires o.maxBudget.None? ==> Key(o) !in offer.stored
    ensures Claimed(p, stored) <= v
  {}

  lemma FitsMeetCounter(o: Permission, before: map<string, int>, budget: nat, v: int, n: int)
    requires IsMeetCounter(o, before, budget, v) && n <= budget && (Key(o) in before ==> n <= before[Key(o)])
    ensures n <= v
    ensures n >= 0 && (n == budget || (Key(o) in before && n == before[Key(o)])) ==> n == v
  {}

  lemma OnlyCoverIn(offer: Grants, ceiling: Grants, r: Grants, p: Permission, o: Permission, q: Permission)
    requires IsClamp(offer, ceiling, r) && NonOverlapping(offer)
    requires o in offer.permissions && Covers(o, p) && Clamped(o, ceiling.permissions) == Some(q)
    ensures IsMatch(r.permissions, p, q)
  {
    forall q' | q' in r.permissions && Covers(q', p) ensures q' == q {
      var o' := ClampOrigin(offer, ceiling, r, q');
      assert Covers(o', p);
    }
    SortsBeforeTotal(q, q);
  }

  /** A permission without a unit is within both, and nothing that is left of the offer covers it. */
  lemma DroppedWhole(offer: Grants, ceiling: Grants, r: Grants, o: Permission, req: Permission)
    requires IsClamp(offer, ceiling, r) && NonOverlapping(offer) && NonNegative(offer) && NonNegative(ceiling)
    requires o in offer.permissions && Covers(o, req) && Can(ceiling, req) && !Can(ceiling, o)
    ensures !HoldsAllWithinBoth(offer, ceiling, r)
  {
    var p := Permission(req.name, req.scope, Some(0));
    var x := Grants({p}, map[Key(p) := 0]);
    NothingIsContained(offer, p, o);
    NothingIsContained(ceiling, p, Match(ceiling.permissions, req).value);
    NothingLeftCovers(offer, ceiling, r, o, p);
    assert !Contained(p, x.stored, r);
    assert SubsetOf(x, offer) && SubsetOf(x, ceiling) && !SubsetOf(x, r);
  }

  lemma NothingLeftCovers(offer: Grants, ceiling: Grants, r: Grants, o: Permission, p: Permission)
    requires IsClamp(offer, ceiling, r) && NonOverlapping(offer)
    requires o in offer.permissions && Covers(o, p) && !Can(ceiling, o)
    ensures Match(r.permissions, p).None?
  {
    if Match(r.permissions, p).Some? {
      var o' := ClampOrigin(offer, ceiling, r, Match(r.permissions, p).value);
      assert Covers(o', p) && Covers(o, p);
    }
  }

  lemma NothingIsContained(source: Grants, p: Permission, cover: Permission)
    requires NonNegative(source) && cover in source.permissions && Covers(cover, p) && p.maxBudget == Some(0)
    ensures Contained(p, map[Key(p) := 0], source)
  {
    MatchGovernsItself(source.permissions, p, Match(source.permissions, p).value);
  }

  // ---- what clamping leaves alone ----

  /** An offer that is within the ceiling already comes through as it was, counters included. */
  lemma FittingOfferIsUnchanged(offer: Grants, ceiling: Grants, r: Grants)
    requires IsClamp(offer, ceiling, r) && KeysApart(offer) && SubsetOf(offer, ceiling)
    requires forall k :: k in offer.stored ==> offer.stored[k] >= 0
    ensures r.permissions == offer.permissions
    ensures forall p :: p in r.permissions && p.maxBudget.Some? ==> Remaining(p, r.stored) == Claimed(p, offer.stored)
  {
    forall p | p in offer.permissions ensures Clamped(p, ceiling.permissions) == Some(p) {
      FittingPermission(offer, ceiling, p);
    }
    forall p | p in r.permissions && p.maxBudget.Some? ensures Remaining(p, r.stored) == Claimed(p, offer.stored) {
      var o := ClampOrigin(offer, ceiling, r, p);
      ClampKeepsCounters(offer, ceiling, r, p, p);
      FitsMeetCounter(p, offer.stored, p.maxBudget.value, r.stored[Key(p)], Claimed(p, offer.stored));
    }
  }

  lemma FittingPermission(offer: Grants, ceiling: Grants, p: Permission)
    requires SubsetOf(offer, ceiling) && p in offer.permissions
    ensures Clamped(p, ceiling.permissions) == Some(p)
  {
    assert Contained(p, offer.stored, ceiling);
    var c := Match(ceiling.permissions, p).value;
    ClampedIsMeet(ceiling.permissions, p, c);
  }

  /** Clamping twice is clamping once. */
  lemma ClampingTwiceIsOnce(offer: Grants, ceiling: Grants, r: Grants, s: Grants)
    requires IsClamp(offer, ceiling, r) && IsClamp(r, ceiling, s) && KeysApart(offer)
    ensures s.permissions == r.permissions
    ensures forall p :: p in r.permissions && p.maxBudget.Some? ==> Remaining(p, s.stored) == Remaining(p, r.stored)
  {
    forall q | q in r.permissions ensures Clamped(q, ceiling.permissions) == Some(q) {
      ClampedStays(offer, ceiling, r, q);
    }
    ClampKeysApart(offer, ceiling, r);
    forall q | q in r.permissions && q.maxBudget.Some? ensures Remaining(q, s.stored) == Remaining(q, r.stored) {
      var p := ClampOrigin(offer, ceiling, r, q);
      ClampKeepsCounters(offer, ceiling, r, p, q);
      ClampKeepsCounters(r, ceiling, s, q, q);
      SameMeetCounter(p, offer.stored, q, r.stored, q.maxBudget.value, s.stored[Key(q)]);
    }
  }

  lemma SameMeetCounter(p: Permission, before: map<string, int>, q: Permission, after: map<string, int>, budget: nat, v: int)
    requires Key(q) in after && IsMeetCounter(p, before, budget, after[Key(q)]) && IsMeetCounter(q, after, budget, v)
    ensures v == after[Key(q)]
  {}

  lemma ClampedStays(offer: Grants, ceiling: Grants, r: Grants, q: Permission)
    requires IsClamp(offer, ceiling, r) && q in r.permissions
    ensures Clamped(q, ceiling.permissions) == Some(q)
  {
    var p := ClampOrigin(offer, ceiling, r, q);
    MatchIgnoresRequestBudget(ceiling.permissions, p, q.maxBudget);
    var c := Match(ceiling.permissions, p).value;
    ClampedIsMeet(ceiling.permissions, p, c);
    ClampedIsMeet(ceiling.permissions, q, c);
  }

  lemma ClampKeysApart(offer: Grants, ceiling: Grants, r: Grants)
    requires IsClamp(offer, ceiling, r) && KeysApart(offer)
    ensures KeysApart(r)
  {
    forall p, q | p in r.permissions && q in r.permissions && Key(p) == Key(q) ensures p == q {
      var o := ClampOrigin(offer, ceiling, r, p);
      var o' := ClampOrigin(offer, ceiling, r, q);
      assert Key(o) == Key(p) && Key(o') == Key(q);
    }
  }

  /** Three units offered to a ceiling of five arrive as three. */
  lemma ThreeOfFiveArrive(r: Grants)
    requires IsClamp(Grants({Permission("read", "x", Some(3))}, map[]), Grants({Permission("read", "x", Some(5))}, map[]), r)
    ensures r.permissions == {Permission("read", "x", Some(3))}
    ensures Remaining(Permission("read", "x", Some(3)), r.stored) == 3
  {
    var three, five := Permission("read", "x", Some(3)), Permission("read", "x", Some(5));
    SortsBeforeTotal(five, five);
    MatchIs({five}, three, five);
    FittingOfferIsUnchanged(Grants({three}, map[]), Grants({five}, map[]), r);
  }
}
