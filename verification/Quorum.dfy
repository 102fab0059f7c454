/** Weighted vote aggregation. Weights are reals: rounding is not modelled. */
module Quorum {
  import opened Prelude
  import opened Decisions

  datatype Vote = Vote(governorId: string, decision: Decision, weight: real)

  ghost predicate Positive(votes: seq<Vote>) {
    forall i :: 0 <= i < |votes| ==> votes[i].weight > 0.0
  }

  ghost predicate AllFor(votes: seq<Vote>, d: Decision) {
    forall i :: 0 <= i < |votes| ==> votes[i].decision == d
  }

  ghost predicate SomeFor(votes: seq<Vote>, d: Decision) {
    exists i :: 0 <= i < |votes| && votes[i].decision == d
  }

  function Share(v: Vote, d: Decision): real {
    if v.decision == d then v.weight else 0.0
  }

  function WeightOf(votes: seq<Vote>, d: Decision): real {
    if votes == [] then 0.0 else WeightOf(votes[..|votes| - 1], d) + Share(votes[|votes| - 1], d)
  }

  function Total(votes: seq<Vote>): real {
    if votes == [] then 0.0 else Total(votes[..|votes| - 1]) + votes[|votes| - 1].weight
  }

  // ---- what weights say about votes ----

  /** A decision weighs between nothing and everything: nothing without a vote for it, everything with no other vote. */
  lemma {:induction false} WeightBounds(votes: seq<Vote>, d: Decision)
    requires Positive(votes)
    ensures 0.0 <= WeightOf(votes, d) <= Total(votes)
    ensures WeightOf(votes, d) > 0.0 <==> SomeFor(votes, d)
    ensures WeightOf(votes, d) == Total(votes) <==> AllFor(votes, d)
  {
    if votes != [] {
      var n := |votes| - 1;
      WeightBounds(votes[..n], d);
      assert SomeFor(votes, d) <==> SomeFor(votes[..n], d) || votes[n].decision == d;
      assert AllFor(votes, d) <==> AllFor(votes[..n], d) && votes[n].decision == d;
    }
  }

  /** Some decision weighs as much as all votes together exactly when every vote agrees. */
  lemma WeightEqualityIsUnanimity(votes: seq<Vote>)
    requires Positive(votes)
    ensures (exists d :: WeightOf(votes, d) == Total(votes)) <==> (exists d :: AllFor(votes, d))
  {
    if d :| WeightOf(votes, d) == Total(votes) {
      WeightBounds(votes, d);
    }
    if d :| AllFor(votes, d) {
      WeightBounds(votes, d);
    }
  }

  lemma {:induction false} WeightUpdate(votes: seq<Vote>, i: nat, v: Vote, d: Decision)
    requires i < |votes|
    ensures WeightOf(votes[i := v], d) == WeightOf(votes, d) - Share(votes[i], d) + Share(v, d)
    ensures Total(votes[i := v]) == Total(votes) - votes[i].weight + v.weight
  {
    var n := |votes| - 1;
    if i == n {
      assert votes[i := v][..n] == votes[..n];
    } else {
      assert votes[i := v][..n] == votes[..n][i := v];
      WeightUpdate(votes[..n], i, v, d);
    }
  }

  lemma {:induction false} WeightRemove(votes: seq<Vote>, i: nat, d: Decision)
    requires i < |votes|
    ensures WeightOf(votes[..i] + votes[i + 1..], d) == WeightOf(votes, d) - Share(votes[i], d)
    ensures Total(votes[..i] + votes[i + 1..]) == Total(votes) - votes[i].weight
  {
    var n := |votes| - 1;
    var rest := votes[..i] + votes[i + 1..];
    if i == n {
      assert rest == votes[..n];
    } else {
      assert rest[..n - 1] == votes[..n][..i] + votes[..n][i + 1..];
      assert rest[n - 1] == votes[n] && votes[..n][i] == votes[i];
      WeightRemove(votes[..n], i, d);
    }
  }

  lemma MultisetRemove(votes: seq<Vote>, i: nat)
    requires i < |votes|
    ensures multiset(votes[..i] + votes[i + 1..]) == multiset(votes) - multiset{votes[i]}
  {
    assert votes == votes[..i] + ([votes[i]] + votes[i + 1..]);
  }

  lemma MultisetPrefix(votes: seq<Vote>)
    requires votes != []
    ensures multiset(votes[..|votes| - 1]) == multiset(votes) - multiset{votes[|votes| - 1]}
  {
    MultisetRemove(votes, |votes| - 1);
    assert votes[..|votes| - 1] + votes[|votes|..] == votes[..|votes| - 1];
  }

  lemma {:induction false} WeightPermutation(a: seq<Vote>, b: seq<Vote>, d: Decision)
    requires multiset(a) == multiset(b)
    ensures WeightOf(a, d) == WeightOf(b, d) && Total(a) == Total(b)
    decreases |a|
  {
    if a == [] {
      assert |b| == |multiset(b)| == |multiset(a)|;
    } else {
      var n := |a| - 1;
      assert a[n] in multiset(a);
      var i := FindVote(b, a[n]);
      MultisetRemove(b, i);
      MultisetPrefix(a);
      WeightPermutation(a[..n], b[..i] + b[i + 1..], d);
      WeightRemove(b, i, d);
    }
  }

  lemma FindVote(votes: seq<Vote>, v: Vote) returns (i: nat)
    requires v in multiset(votes)
    ensures i < |votes| && votes[i] == v
  {
    i :| 0 <= i < |votes| && votes[i] == v;
  }

  // ---- the outcome, stated on votes ----

  datatype Outcome = Outcome(decision: Decision, signals: seq<Signal>)

  function Ratio(weight: real, total: real): real
    requires total > 0.0
  {
    weight / total
  }

  /** The weight that makes up the threshold's share of a total. */
  function Quota(threshold: real, total: real): real {
    threshold * total
  }

  lemma QuotaIsTheShare(weight: real, total: real, threshold: real)
    requires total > 0.0
    ensures Ratio(weight, total) >= threshold <==> weight >= Quota(threshold, total)
    ensures threshold > 0.0 ==> Quota(threshold, total) > 0.0
  {
    var ratio := weight / total;
    assert ratio * total == weight;
    assert ratio >= threshold ==> ratio * total >= threshold * total;
    assert ratio < threshold ==> ratio * total < threshold * total;
  }

  /** The share of `d` reaches the threshold. */
  ghost predicate Reaches(votes: seq<Vote>, d: Decision, threshold: real) {
    Total(votes) > 0.0 && Ratio(WeightOf(votes, d), Total(votes)) >= threshold
  }

  ghost function Ruling(votes: seq<Vote>, threshold: real, humanOnDisagreement: bool): Outcome {
    if votes == [] then Outcome(HUMAN, [QUORUM_REJECTED])
    else if SomeFor(votes, HUMAN) then Outcome(HUMAN, [])
    else if AllFor(votes, votes[0].decision) then Outcome(votes[0].decision, [])
    else if Reaches(votes, CONTINUE, threshold) then
      if humanOnDisagreement then Outcome(HUMAN, [HIGH_DISAGREEMENT]) else Outcome(CONTINUE, [])
    else if Reaches(votes, RESTRICT, threshold) then Outcome(RESTRICT, [])
    else if Reaches(votes, RECHECK, threshold) then Outcome(RECHECK, [])
    else Outcome(HUMAN, [QUORUM_REJECTED])
  }

  /** The peers' decision on a governor's own CONTINUE, which stands when there is no quorum to ask. */
  ghost function Peers(votes: Option<seq<Vote>>, threshold: real, humanOnDisagreement: bool): Decision {
    if votes.None? then CONTINUE else Ruling(votes.value, threshold, humanOnDisagreement).decision
  }

  lemma AnyHumanVoteRules(votes: seq<Vote>, threshold: real, humanOnDisagreement: bool)
    requires SomeFor(votes, HUMAN)
    ensures Ruling(votes, threshold, humanOnDisagreement).decision == HUMAN
  {}

  /** A quorum that hears nobody refuses; where there is none to ask, the governor's own CONTINUE stands. */
  lemma SilenceIsNoConsent(threshold: real, humanOnDisagreement: bool)
    ensures Ruling([], threshold, humanOnDisagreement) == Outcome(HUMAN, [QUORUM_REJECTED])
    ensures Peers(Some([]), threshold, humanOnDisagreement) == HUMAN && Peers(None, threshold, humanOnDisagreement) == CONTINUE
  {}

  /** When disagreement escalates, only a unanimous CONTINUE continues. */
  lemma ContinueNeedsUnanimity(votes: seq<Vote>, threshold: real)
    ensures Ruling(votes, threshold, true).decision == CONTINUE <==> votes != [] && AllFor(votes, CONTINUE)
  {}

  /** The order in which votes arrive does not matter. */
  lemma OrderDoesNotMatter(a: seq<Vote>, b: seq<Vote>, threshold: real, humanOnDisagreement: bool)
    requires multiset(a) == multiset(b) && Positive(a)
    ensures Ruling(a, threshold, humanOnDisagreement) == Ruling(b, threshold, humanOnDisagreement)
  {
    forall i | 0 <= i < |b| ensures b[i].weight > 0.0 {
      assert b[i] in multiset(a);
    }
    forall d: Decision ensures WeightOf(a, d) == WeightOf(b, d) && Total(a) == Total(b) {
      WeightPermutation(a, b, d);
    }
    forall d: Decision ensures (SomeFor(a, d) <==> SomeFor(b, d)) && (AllFor(a, d) <==> AllFor(b, d)) {
      WeightBounds(a, d);
      WeightBounds(b, d);
    }
    assert |a| == |multiset(a)| == |b|;
    if a != [] && AllFor(a, a[0].decision) {
      assert AllFor(b, a[0].decision);
    }
    if b != [] && AllFor(b, b[0].decision) {
      assert AllFor(a, b[0].decision);
    }
  }

  /** Withdrawing a CONTINUE vote never makes a refused proposal continue. */
  lemma WithdrawnConsentNeverContinues(votes: seq<Vote>, i: nat, d: Decision, threshold: real, humanOnDisagreement: bool)
    requires Positive(votes) && i < |votes| && votes[i].decision == CONTINUE && d != CONTINUE
    requires Ruling(votes, threshold, humanOnDisagreement).decision != CONTINUE
    ensures Ruling(votes[i := votes[i].(decision := d)], threshold, humanOnDisagreement).decision != CONTINUE
  {
    var v := votes[i].(decision := d);
    var moved := votes[i := v];
    WeightUpdate(votes, i, v, CONTINUE);
    WeightBounds(votes, CONTINUE);
    WeightBounds(moved, CONTINUE);
    assert moved[i].decision == d;
    if SomeFor(votes, HUMAN) {
      var j :| 0 <= j < |votes| && votes[j].decision == HUMAN;
      assert moved[j].decision == HUMAN;
    } else if !AllFor(votes, votes[0].decision) && !humanOnDisagreement {
      ShareMonotone(WeightOf(moved, CONTINUE), WeightOf(votes, CONTINUE), Total(votes), threshold);
    }
  }

  lemma ShareMonotone(x: real, y: real, total: real, threshold: real)
    requires x <= y && total > 0.0 && y / total < threshold
    ensures x / total < threshold
  {}

  // ---- what the threshold guarantees, in votes and weights ----

  /** A decision other than HUMAN is unanimous or carries the threshold's share of the weight. */
  lemma OutcomeIsBacked(votes: seq<Vote>, threshold: real, humanOnDisagreement: bool)
    requires Positive(votes) && Ruling(votes, threshold, humanOnDisagreement).decision != HUMAN
    ensures
      var d := Ruling(votes, threshold, humanOnDisagreement).decision;
      && votes != []
      && (forall v :: v in votes ==> v.decision != HUMAN)
      && ((forall v :: v in votes ==> v.decision == d) || WeightOf(votes, d) >= Quota(threshold, Total(votes)))
  {
    var d := Ruling(votes, threshold, humanOnDisagreement).decision;
    forall v | v in votes ensures v.decision != HUMAN {
      var i :| 0 <= i < |votes| && votes[i] == v;
      assert !SomeFor(votes, HUMAN);
    }
    if AllFor(votes, votes[0].decision) {
      forall v | v in votes ensures v.decision == d {
        var i :| 0 <= i < |votes| && votes[i] == v;
      }
    } else {
      TotalPositive(votes);
      ShareReached(votes, d, threshold);
    }
  }

  lemma TotalPositive(votes: seq<Vote>)
    requires votes != [] && Positive(votes)
    ensures Total(votes) > 0.0
  {
    WeightBounds(votes, votes[0].decision);
    assert SomeFor(votes, votes[0].decision);
  }

  lemma ShareReached(votes: seq<Vote>, d: Decision, threshold: real)
    requires Total(votes) > 0.0
    ensures Reaches(votes, d, threshold) <==> WeightOf(votes, d) >= Quota(threshold, Total(votes))
  {
    QuotaIsTheShare(WeightOf(votes, d), Total(votes), threshold);
  }

  /** All votes are for `d`, or the votes for `d` carry the threshold's share. */
  predicate Carries(votes: seq<Vote>, d: Decision, threshold: real) {
    (forall i :: 0 <= i < |votes| ==> votes[i].decision == d) || WeightOf(votes, d) >= Quota(threshold, Total(votes))
  }

  /**
   When disagreement is tolerated and there are votes, none of them HUMAN:
   unanimity decides; without it the first of CONTINUE, RESTRICT and RECHECK to
   carry the share does, and HUMAN when none carries it.
   */
  lemma TolerantOutcomeExactly(votes: seq<Vote>, threshold: real)
    requires Positive(votes) && 0.0 < threshold <= 1.0
    requires votes != [] && forall i :: 0 <= i < |votes| ==> votes[i].decision != HUMAN
    ensures
      var d := Ruling(votes, threshold, false).decision;
      var unanimous := forall i :: 0 <= i < |votes| ==> votes[i].decision == votes[0].decision;
      && (unanimous ==> d == votes[0].decision)
      && (d == CONTINUE <==> Carries(votes, CONTINUE, threshold))
      && (!unanimous ==> (d == RESTRICT <==>
            WeightOf(votes, CONTINUE) < Quota(threshold, Total(votes)) && WeightOf(votes, RESTRICT) >= Quota(threshold, Total(votes))))
      && (!unanimous ==> (d == RECHECK <==>
            && WeightOf(votes, CONTINUE) < Quota(threshold, Total(votes))
            && WeightOf(votes, RESTRICT) < Quota(threshold, Total(votes))
            && WeightOf(votes, RECHECK) >= Quota(threshold, Total(votes))))
  {
    TotalPositive(votes);
    QuotaIsTheShare(0.0, Total(votes), threshold);
    forall d: Decision ensures Reaches(votes, d, threshold) <==> WeightOf(votes, d) >= Quota(threshold, Total(votes)) {
      ShareReached(votes, d, threshold);
    }
    TolerantOutcome(votes, threshold, Quota(threshold, Total(votes)));
  }

  lemma TolerantOutcome(votes: seq<Vote>, threshold: real, quota: real)
    requires Positive(votes) && quota > 0.0 && votes != [] && !SomeFor(votes, HUMAN)
    requires forall d: Decision :: Reaches(votes, d, threshold) <==> WeightOf(votes, d) >= quota
    ensures
      var d := Ruling(votes, threshold, false).decision;
      && (AllFor(votes, votes[0].decision) ==> d == votes[0].decision)
      && (d == CONTINUE <==> AllFor(votes, CONTINUE) || WeightOf(votes, CONTINUE) >= quota)
      && (!AllFor(votes, votes[0].decision) ==>
            && (d == RESTRICT <==> WeightOf(votes, CONTINUE) < quota <= WeightOf(votes, RESTRICT))
            && (d == RECHECK <==>
                  WeightOf(votes, CONTINUE) < quota && WeightOf(votes, RESTRICT) < quota && WeightOf(votes, RECHECK) >= quota))
  {
    WeightBounds(votes, CONTINUE);
    assert AllFor(votes, votes[0].decision) && votes[0].decision != CONTINUE ==> !SomeFor(votes, CONTINUE);
  }

  /** When disagreement escalates, whatever is not unanimous never continues, and the same shares decide the rest. */
  lemma EscalatingOutcomeExactly(votes: seq<Vote>, threshold: real)
    requires Positive(votes) && votes != []
    ensures
      var strict, tolerant := Ruling(votes, threshold, true), Ruling(votes, threshold, false);
      && ((forall i :: 0 <= i < |votes| ==> votes[i].decision == votes[0].decision) ==> strict == tolerant)
      && (tolerant.decision != CONTINUE ==> strict == tolerant)
      && (tolerant.decision == CONTINUE && (exists i :: 0 <= i < |votes| && votes[i].decision != CONTINUE) ==>
            strict == Outcome(HUMAN, [HIGH_DISAGREEMENT]))
  {
    if forall i :: 0 <= i < |votes| ==> votes[i].decision == votes[0].decision {
      assert AllFor(votes, votes[0].decision);
    }
  }

  /** Two votes of equal weight for RESTRICT outweigh one for CONTINUE at a threshold of one half. */
  lemma OneVoteInThreeDoesNotContinue()
    ensures
      var votes := [Vote("a", CONTINUE, 1.0), Vote("b", RESTRICT, 1.0), Vote("c", RESTRICT, 1.0)];
      Ruling(votes, 0.5, false).decision == RESTRICT
  {
    var votes := [Vote("a", CONTINUE, 1.0), Vote("b", RESTRICT, 1.0), Vote("c", RESTRICT, 1.0)];
    WeightsOfThree(votes[0], votes[1], votes[2], CONTINUE);
    WeightsOfThree(votes[0], votes[1], votes[2], RESTRICT);
    assert votes[1].decision != votes[0].decision;
    TolerantOutcomeExactly(votes, 0.5);
  }

  lemma WeightsOfThree(a: Vote, b: Vote, c: Vote, d: Decision)
    ensures WeightOf([a, b, c], d) == Share(a, d) + Share(b, d) + Share(c, d)
    ensures Total([a, b, c]) == a.weight + b.weight + c.weight
  {
    WeightSnoc([a, b], c, d);
    WeightSnoc([a], b, d);
    WeightSnoc([], a, d);
    assert [a, b] + [c] == [a, b, c] && [a] + [b] == [a, b] && [] + [a] == [a];
  }

  lemma WeightSnoc(votes: seq<Vote>, v: Vote, d: Decision)
    ensures WeightOf(votes + [v], d) == WeightOf(votes, d) + Share(v, d)
    ensures Total(votes + [v]) == Total(votes) + v.weight
  {
    assert (votes + [v])[..|votes|] == votes;
  }

  ghost predicate IsTally(weights: map<Decision, real>, votes: seq<Vote>) {
    && weights.Keys == {CONTINUE, RESTRICT, RECHECK, HUMAN}
    && weights[CONTINUE] == WeightOf(votes, CONTINUE)
    && weights[RESTRICT] == WeightOf(votes, RESTRICT)
    && weights[RECHECK] == WeightOf(votes, RECHECK)
    && weights[HUMAN] == WeightOf(votes, HUMAN)
  }

  lemma EveryDecision(d: Decision)
    ensures d in {CONTINUE, RESTRICT, RECHECK, HUMAN}
  {}

  /** What the tests on the tally mean for a non-empty list of votes. */
  lemma TallyMeaning(votes: seq<Vote>, weights: map<Decision, real>)
    requires Positive(votes) && votes != [] && IsTally(weights, votes)
    ensures Total(votes) > 0.0
    ensures forall d: Decision :: d in weights && weights[d] == WeightOf(votes, d)
    ensures weights[HUMAN] > 0.0 <==> SomeFor(votes, HUMAN)
    ensures forall d: Decision :: weights[d] == Total(votes) <==> d == votes[0].decision && AllFor(votes, d)
  {
    forall d: Decision
      ensures d in weights && weights[d] == WeightOf(votes, d)
      ensures weights[d] > 0.0 <==> SomeFor(votes, d)
      ensures weights[d] == Total(votes) <==> AllFor(votes, d)
      ensures weights[d] <= Total(votes)
    {
      EveryDecision(d);
      WeightBounds(votes, d);
    }
    assert SomeFor(votes, votes[0].decision);
  }

  class QuorumAggregator {
    const threshold: real
    const requireHumanOnDisagreement: bool

    constructor (threshold: real, requireHumanOnDisagreement: bool)
      requires 0.0 < threshold <= 1.0
      ensures this.threshold == threshold && this.requireHumanOnDisagreement == requireHumanOnDisagreement
    {
      this.threshold, this.requireHumanOnDisagreement := threshold, requireHumanOnDisagreement;
    }

    static method Tally(votes: seq<Vote>) returns (total: real, weights: map<Decision, real>)
      ensures total == Total(votes) && IsTally(weights, votes)
    {
      total := 0.0;
      weights := map[CONTINUE := 0.0, RESTRICT := 0.0, RECHECK := 0.0, HUMAN := 0.0];
      for i := 0 to |votes|
        invariant total == Total(votes[..i])
        invariant IsTally(weights, votes[..i])
      {
        assert votes[..i + 1][..i] == votes[..i];
        EveryDecision(votes[i].decision);
        total := total + votes[i].weight;
        weights := weights[votes[i].decision := weights[votes[i].decision] + votes[i].weight];
      }
      assert votes[..|votes|] == votes;
    }

    method Aggregate(votes: seq<Vote>) returns (o: Outcome)
      requires Positive(votes)
      ensures o == Ruling(votes, threshold, requireHumanOnDisagreement)
    {
      if votes == [] {
        return Outcome(HUMAN, [QUORUM_REJECTED]);
      }
      var total, weights := Tally(votes);
      TallyMeaning(votes, weights);
      if weights[HUMAN] > 0.0 {
        return Outcome(HUMAN, []);
      }
      var unanimous := Unanimous(weights, total);
      if unanimous.Some? {
        return Outcome(unanimous.value, []);
      }
      if weights[CONTINUE] / total >= threshold {
        if requireHumanOnDisagreement {
          return Outcome(HUMAN, [HIGH_DISAGREEMENT]);
        }
        return Outcome(CONTINUE, []);
      }
      if weights[RESTRICT] / total >= threshold {
        return Outcome(RESTRICT, []);
      }
      if weights[RECHECK] / total >= threshold {
        return Outcome(RECHECK, []);
      }
      return Outcome(HUMAN, [QUORUM_REJECTED]);
    }

    /** The first decision, in declaration order, that carries all the weight. */
    static method Unanimous(weights: map<Decision, real>, total: real) returns (d: Option<Decision>)
      requires weights.Keys == {CONTINUE, RESTRICT, RECHECK, HUMAN}
      ensures d.Some? ==> d.value in weights && weights[d.value] == total
      ensures d.None? ==> forall e :: e in weights ==> weights[e] != total
    {
      var order := [CONTINUE, RESTRICT, RECHECK, HUMAN];
      for i := 0 to |order|
        invariant forall j :: 0 <= j < i ==> weights[order[j]] != total
      {
        if weights[order[i]] == total {
          return Some(order[i]);
        }
      }
      forall e | e in weights ensures weights[e] != total {
        assert e == order[0] || e == order[1] || e == order[2] || e == order[3];
      }
      return None;
    }
  }
}
