/** When a restriction is live, and the in-memory list that is pruned on every read. */
module Restrictions {
  import opened Prelude
  import opened Permissions

  datatype Expiry = Steps(count: int) | Wall(time: real) | Human

  datatype Restriction = Restriction(permission: Permission, expiry: Expiry)

  /** The governor's step count and wall clock at one moment. */
  datatype Moment = Moment(step: int, clock: real)

  predicate NotBefore(later: Moment, earlier: Moment) {
    earlier.step <= later.step && earlier.clock <= later.clock
  }

  predicate IsLive(e: Expiry, m: Moment) {
    match e
    case Human => true
    case Wall(time) => time > m.clock
    case Steps(count) => count > m.step
  }

  function Active(rs: seq<Restriction>, m: Moment): set<Permission> {
    set i | 0 <= i < |rs| && IsLive(rs[i].expiry, m) :: rs[i].permission
  }

  function Pruned(rs: seq<Restriction>, m: Moment): seq<Restriction> {
    if rs == [] then []
    else
      var n := |rs| - 1;
      if IsLive(rs[n].expiry, m) then Pruned(rs[..n], m) + [rs[n]] else Pruned(rs[..n], m)
  }

  lemma ActiveSnoc(rs: seq<Restriction>, r: Restriction, m: Moment)
    ensures Active(rs + [r], m) == Active(rs, m) + (if IsLive(r.expiry, m) then {r.permission} else {})
  {
    var all := rs + [r];
    forall p | p in Active(all, m) ensures p in Active(rs, m) + (if IsLive(r.expiry, m) then {r.permission} else {}) {
      var i :| 0 <= i < |all| && IsLive(all[i].expiry, m) && all[i].permission == p;
      assert i < |rs| ==> rs[i] == all[i];
    }
    forall p | p in Active(rs, m) + (if IsLive(r.expiry, m) then {r.permission} else {}) ensures p in Active(all, m) {
      if p in Active(rs, m) {
        var i :| 0 <= i < |rs| && IsLive(rs[i].expiry, m) && rs[i].permission == p;
        assert all[i] == rs[i];
      } else {
        assert all[|rs|] == r;
      }
    }
  }

  /** Pruning at one moment loses nothing that is active at that moment or later. */
  lemma {:induction false} PruningIsHarmless(rs: seq<Restriction>, at: Moment, later: Moment)
    requires NotBefore(later, at)
    ensures Active(Pruned(rs, at), later) == Active(rs, later)
  {
    if rs != [] {
      var n := |rs| - 1;
      assert rs == rs[..n] + [rs[n]];
      PruningIsHarmless(rs[..n], at, later);
      ActiveSnoc(rs[..n], rs[n], later);
      if IsLive(rs[n].expiry, at) {
        ActiveSnoc(Pruned(rs[..n], at), rs[n], later);
      }
    }
  }

  /** Pruning at `at` is invisible at `m`, whatever was imposed, exactly when neither counter went back in between. */
  lemma PruningIsHarmlessExactly(at: Moment, m: Moment)
    ensures NotBefore(m, at) <==> forall rs :: Active(Pruned(rs, at), m) == Active(rs, m)
  {
    if NotBefore(m, at) {
      forall rs ensures Active(Pruned(rs, at), m) == Active(rs, m) {
        PruningIsHarmless(rs, at, m);
      }
    } else {
      var p := Permission("p", WILDCARD, None);
      PruningForgets(Restriction(p, if m.step < at.step then Steps(at.step) else Wall(at.clock)), at, m);
    }
  }

  lemma PruningForgets(r: Restriction, at: Moment, m: Moment)
    requires !IsLive(r.expiry, at) && IsLive(r.expiry, m)
    ensures Active(Pruned([r], at), m) != Active([r], m)
  {
    assert [r][..0] == [] && Pruned([], at) == [];
    assert [r] == [] + [r];
    ActiveSnoc([], r, m);
    assert r.permission in Active([r], m);
  }

  // ---- a whole history of impositions and pruning reads ----

  datatype Event = Impose(r: Restriction) | Read(at: Moment)

  function History(events: seq<Event>): seq<Restriction> {
    if events == [] then []
    else
      var n := |events| - 1;
      if events[n].Impose? then History(events[..n]) + [events[n].r] else History(events[..n])
  }

  function LazyList(events: seq<Event>): seq<Restriction> {
    if events == [] then []
    else
      var n := |events| - 1;
      if events[n].Impose? then LazyList(events[..n]) + [events[n].r] else Pruned(LazyList(events[..n]), events[n].at)
  }

  /** As long as neither the step count nor the clock goes back, the list answers like the full history. */
  lemma {:induction false} LazyListAnswersLikeHistory(events: seq<Event>, now: Moment)
    requires forall i :: 0 <= i < |events| && events[i].Read? ==> NotBefore(now, events[i].at)
    ensures Active(LazyList(events), now) == Active(History(events), now)
  {
    if events != [] {
      var n := |events| - 1;
      LazyListAnswersLikeHistory(events[..n], now);
      match events[n]
      case Impose(r) =>
        ActiveSnoc(LazyList(events[..n]), r, now);
        ActiveSnoc(History(events[..n]), r, now);
      case Read(at) =>
        PruningIsHarmless(LazyList(events[..n]), at, now);
    }
  }
}
