/**
 Weighted tallies against a threshold: the arithmetic the dispute multisig and the
 trusted circle share.

 A fraction is the number of its 10^-18 parts, as the library's fixed-point decimal keeps it.
 Weights are natural numbers: `VotesNeededAtMostWeight` shows that narrowing a result to 64
 bits keeps it, and a subtraction that would trap below zero is a precondition.
 */
module Voting {
  import opened Base
  import opened Sums

  const PRECISION_FACTOR: nat := 1_000_000_000
  const ONE: nat := 1_000_000_000_000_000_000
  const HALF: nat := 500_000_000_000_000_000

  type Fraction = nat

  datatype Vote = Yes | No | Abstain | Veto

  datatype Status = Pending | Open | Rejected | Passed | Executed

  datatype Votes = Votes(yes: nat, no: nat, abstain: nat, veto: nat) {
    function Total(): nat {
      yes + no + abstain + veto
    }

    function AddVote(vote: Vote, weight: nat): Votes {
      match vote
      case Yes => this.(yes := yes + weight)
      case No => this.(no := no + weight)
      case Abstain => this.(abstain := abstain + weight)
      case Veto => this.(veto := veto + weight)
    }

    /** The weight recorded for one option. */
    function For(vote: Vote): nat {
      match vote
      case Yes => yes
      case No => no
      case Abstain => abstain
      case Veto => veto
    }
  }

  const NO_VOTES := Votes(0, 0, 0, 0)

  datatype Ballot = Ballot(points: nat, vote: Vote)

  datatype Threshold =
    | AbsoluteCount(weight: nat)
    | AbsolutePercentage(percentage: Fraction)
    | ThresholdQuorum(threshold: Fraction, quorum: Fraction)
  {
    /** The library's validation of a threshold against the total weight. */
    predicate Valid(total: nat) {
      match this
      case AbsoluteCount(weight) => 0 < weight <= total
      case AbsolutePercentage(percentage) => HALF <= percentage <= ONE
      case ThresholdQuorum(threshold, quorum) => HALF <= threshold <= ONE && 0 < quorum <= ONE
    }
  }

  /** Two roundings: the product is cut to 9 places, and only then rounded up. */
  function VotesNeeded(weight: nat, fraction: Fraction): nat {
    var applied := fraction * (PRECISION_FACTOR * weight) / ONE;
    (applied + PRECISION_FACTOR - 1) / PRECISION_FACTOR
  }

  /** The tally fits the total weight. */
  predicate Within(votes: Votes, total: nat) {
    votes.Total() <= total
  }

  predicate IsPassed(rule: Threshold, total: nat, votes: Votes, expired: bool)
    requires votes.abstain <= total
  {
    match rule
    case AbsoluteCount(weight) => votes.yes >= weight
    case AbsolutePercentage(percentage) => votes.yes >= VotesNeeded(total - votes.abstain, percentage)
    case ThresholdQuorum(threshold, quorum) =>
      if votes.Total() < VotesNeeded(total, quorum) then false
      else if expired then
        votes.yes >= VotesNeeded(votes.Total() - votes.abstain, threshold)
      else
        votes.yes >= VotesNeeded(total - votes.abstain, threshold)
  }

  predicate IsRejected(rule: Threshold, total: nat, votes: Votes, expired: bool)
    requires rule.Valid(total) && votes.abstain <= total
  {
    match rule
    case AbsoluteCount(weight) => votes.no > total - weight
    case AbsolutePercentage(percentage) => votes.no > VotesNeeded(total - votes.abstain, ONE - percentage)
    case ThresholdQuorum(threshold, quorum) =>
      if expired then
        votes.no > VotesNeeded(votes.Total() - votes.abstain, ONE - threshold)
      else
        votes.no > VotesNeeded(total - votes.abstain, ONE - threshold)
  }

  /** The status an open poll has: passed, else rejected or timed out, else open. */
  function OpenStatus(rule: Threshold, total: nat, votes: Votes, expired: bool): Status
    requires rule.Valid(total) && votes.abstain <= total
  {
    if IsPassed(rule, total, votes, expired) then Passed
    else if IsRejected(rule, total, votes, expired) || expired then Rejected
    else Open
  }

  /** `later` can be reached from `votes` by casting more weight within the total. */
  predicate Completes(votes: Votes, later: Votes, total: nat) {
    && votes.yes <= later.yes
    && votes.no <= later.no
    && votes.abstain <= later.abstain
    && votes.veto <= later.veto
    && Within(later, total)
  }

  /** No sequence of further votes stops the poll from passing when it expires. */
  ghost predicate SureToPass(rule: Threshold, total: nat, votes: Votes) {
    forall later :: Completes(votes, later, total) ==> IsPassed(rule, total, later, true)
  }

  /** No sequence of further votes makes the poll pass, early or at expiry. */
  ghost predicate SureToFail(rule: Threshold, total: nat, votes: Votes) {
    forall later, expired ::
      Completes(votes, later, total) ==> !IsPassed(rule, total, later, expired)
  }

  // ---------------------------------------------------------------- votes_needed

  function CeilingDiv(n: nat, d: nat): nat
    requires d > 0
  {
    (n + d - 1) / d
  }

  lemma VotesNeededProduct(weight: nat, fraction: Fraction)
    ensures VotesNeeded(weight, fraction) == CeilingDiv(weight * fraction / PRECISION_FACTOR, PRECISION_FACTOR)
  {
    var x := weight * fraction;
    assert fraction * (PRECISION_FACTOR * weight) == PRECISION_FACTOR * x;
    assert PRECISION_FACTOR * x / ONE == x / PRECISION_FACTOR;
  }

  /** Exactly when the first rounding loses a vote: the part of a vote is non-zero but below 10^-9. */
  lemma VotesNeededExact(weight: nat, fraction: Fraction)
    ensures
      var ceiling := CeilingDiv(weight * fraction, ONE);
      var part := weight * fraction % ONE;
      VotesNeeded(weight, fraction) == if 0 < part < PRECISION_FACTOR then ceiling - 1 else ceiling
  {
    VotesNeededProduct(weight, fraction);
    TwoRoundings(weight * fraction);
  }

  lemma TwoRoundings(x: nat)
    ensures CeilingDiv(x / PRECISION_FACTOR, PRECISION_FACTOR) ==
      CeilingDiv(x, ONE) - (if 0 < x % ONE < PRECISION_FACTOR then 1 else 0)
  {
    var q, part := x / ONE, x % ONE;
    var cut := part / PRECISION_FACTOR;
    assert x / PRECISION_FACTOR == q * PRECISION_FACTOR + cut;
    assert CeilingDiv(q * PRECISION_FACTOR + cut, PRECISION_FACTOR) == q + (if cut == 0 then 0 else 1);
    assert CeilingDiv(q * ONE + part, ONE) == q + (if part == 0 then 0 else 1);
  }

  /** So many votes are the fraction of the weight, up to 10^-9 of a vote. */
  predicate Enough(votes: nat, weight: nat, fraction: Fraction) {
    votes * 1_000_000_000_000_000_000 + 1_000_000_000 > weight * fraction
  }

  /** What the two roundings come to, for every fraction. */
  lemma NeedMetIff(votes: nat, weight: nat, fraction: Fraction)
    ensures votes >= VotesNeeded(weight, fraction) <==> Enough(votes, weight, fraction)
  {
    VotesNeededProduct(weight, fraction);
    RoundingsMetIff(votes, weight * fraction);
  }

  lemma RoundingsMetIff(votes: nat, x: nat)
    ensures votes >= CeilingDiv(x / PRECISION_FACTOR, PRECISION_FACTOR) <==> votes * ONE + PRECISION_FACTOR > x
  {
    var y := x / PRECISION_FACTOR;
    assert votes >= CeilingDiv(y, PRECISION_FACTOR) <==> votes * PRECISION_FACTOR >= y;
    assert x == y * PRECISION_FACTOR + x % PRECISION_FACTOR;
  }

  /** When a poll counts as passed, and what decides it after it expired: without VotesNeeded. */
  lemma PassedIff(rule: Threshold, total: nat, votes: Votes, expired: bool)
    requires votes.abstain <= total
    ensures IsPassed(rule, total, votes, expired) <==>
      var cast := votes.yes + votes.no + votes.abstain + votes.veto;
      match rule
      case AbsoluteCount(weight) => votes.yes >= weight
      case AbsolutePercentage(percentage) => Enough(votes.yes, total - votes.abstain, percentage)
      case ThresholdQuorum(threshold, quorum) =>
        Enough(cast, total, quorum) && Enough(votes.yes, (if expired then cast else total) - votes.abstain, threshold)
  {
    hide VotesNeeded, Enough;
    match rule
    case AbsoluteCount(_) =>
    case AbsolutePercentage(percentage) => NeedMetIff(votes.yes, total - votes.abstain, percentage);
    case ThresholdQuorum(threshold, quorum) =>
      NeedMetIff(votes.Total(), total, quorum);
      NeedMetIff(votes.yes, (if expired then votes.Total() else total) - votes.abstain, threshold);
  }

  /** When it counts as rejected before all have voted: one No less would still meet the rest of the threshold. */
  lemma RejectedIff(rule: Threshold, total: nat, votes: Votes, expired: bool)
    requires rule.Valid(total) && votes.abstain <= total
    ensures IsRejected(rule, total, votes, expired) <==>
      var cast := votes.yes + votes.no + votes.abstain + votes.veto;
      match rule
      case AbsoluteCount(weight) => votes.no > total - weight
      case AbsolutePercentage(percentage) =>
        votes.no > 0 && Enough(votes.no - 1, total - votes.abstain, ONE - percentage)
      case ThresholdQuorum(threshold, _) =>
        votes.no > 0 && Enough(votes.no - 1, (if expired then cast else total) - votes.abstain, ONE - threshold)
  {
    hide VotesNeeded, Enough;
    if votes.no > 0 {
      match rule
      case AbsoluteCount(_) =>
      case AbsolutePercentage(percentage) => NeedMetIff(votes.no - 1, total - votes.abstain, ONE - percentage);
      case ThresholdQuorum(threshold, _) =>
        NeedMetIff(votes.no - 1, (if expired then votes.Total() else total) - votes.abstain, ONE - threshold);
    }
  }

  /** Fractions with at most nine places are rounded up exactly. */
  lemma VotesNeededNinePlaces(weight: nat, fraction: Fraction)
    requires fraction % PRECISION_FACTOR == 0
    ensures VotesNeeded(weight, fraction) == CeilingDiv(weight * fraction, ONE)
  {
    VotesNeededExact(weight, fraction);
    var n := fraction / PRECISION_FACTOR;
    NinePlaceParts(weight * n);
    assert weight * fraction == (weight * n) * PRECISION_FACTOR;
  }

  lemma NinePlaceParts(y: nat)
    ensures (y * PRECISION_FACTOR) % ONE == 0 || (y * PRECISION_FACTOR) % ONE >= PRECISION_FACTOR
  {
    assert y == y / PRECISION_FACTOR * PRECISION_FACTOR + y % PRECISION_FACTOR;
    assert y * PRECISION_FACTOR == y / PRECISION_FACTOR * ONE + y % PRECISION_FACTOR * PRECISION_FACTOR;
  }

  /** One vote short of the ceiling: a third, written with eighteen places and rounded up, of 3. */
  lemma VotesNeededOneShort()
    ensures VotesNeeded(3, 333_333_333_333_333_334) == 1
    ensures CeilingDiv(3 * 333_333_333_333_333_334, ONE) == 2
  {
  }

  lemma VotesNeededMonotone(weight: nat, more: nat, fraction: Fraction, larger: Fraction)
    requires weight <= more && fraction <= larger
    ensures VotesNeeded(weight, fraction) <= VotesNeeded(more, larger)
  {
    VotesNeededProduct(weight, fraction);
    VotesNeededProduct(more, larger);
    MulMonotone(weight, more, fraction, larger);
  }

  /** The result is at most the weight, so narrowing it to the weight's width keeps it. */
  lemma VotesNeededAtMostWeight(weight: nat, fraction: Fraction)
    requires fraction <= ONE
    ensures VotesNeeded(weight, fraction) <= weight
  {
    VotesNeededMonotone(weight, weight, fraction, ONE);
    VotesNeededNinePlaces(weight, ONE);
  }

  /** The needs of a fraction and of its complement cover the weight, with at most one to spare. */
  lemma VotesNeededComplement(weight: nat, fraction: Fraction)
    requires fraction <= ONE
    ensures weight <= VotesNeeded(weight, fraction) + VotesNeeded(weight, ONE - fraction) <= weight + 1
  {
    VotesNeededProduct(weight, fraction);
    VotesNeededProduct(weight, ONE - fraction);
    var x, y := weight * fraction, weight * (ONE - fraction);
    assert x + y == weight * ONE;
  }

  /** Nobody needs to vote at all exactly when the product is below one nine-place unit. */
  lemma NothingNeededIff(weight: nat, fraction: Fraction)
    ensures VotesNeeded(weight, fraction) == 0 <==> weight * fraction < PRECISION_FACTOR
  {
    VotesNeededProduct(weight, fraction);
  }

  /** A poll in which nobody voted passes at expiry exactly when its quorum rounds to nothing. */
  lemma EmptyPollPassesIff(total: nat, threshold: Fraction, quorum: Fraction)
    requires ThresholdQuorum(threshold, quorum).Valid(total)
    ensures IsPassed(ThresholdQuorum(threshold, quorum), total, NO_VOTES, true) <==> total * quorum < PRECISION_FACTOR
  {
    NothingNeededIff(total, quorum);
    NothingNeededIff(0, threshold);
  }

  // ---------------------------------------------------------------- sure to pass

  /** Passing survives further votes and the passing of time. */
  lemma PassedSurvives(rule: Threshold, total: nat, votes: Votes, later: Votes, expired: bool)
    requires rule.Valid(total) && Within(votes, total)
    requires Completes(votes, later, total)
    requires IsPassed(rule, total, votes, false)
    ensures IsPassed(rule, total, later, expired)
  {
    match rule
    case AbsoluteCount(_) =>
    case AbsolutePercentage(p) =>
      VotesNeededMonotone(total - later.abstain, total - votes.abstain, p, p);
    case ThresholdQuorum(t, _) =>
      VotesNeededMonotone(total - later.abstain, total - votes.abstain, t, t);
      VotesNeededMonotone(later.Total() - later.abstain, total - votes.abstain, t, t);
  }

  /** Before expiry a poll counts as passed exactly when every completion passes. */
  lemma PassedIffSureToPass(rule: Threshold, total: nat, votes: Votes)
    requires rule.Valid(total) && Within(votes, total)
    ensures IsPassed(rule, total, votes, false) <==> SureToPass(rule, total, votes)
  {
    if IsPassed(rule, total, votes, false) {
      forall later | Completes(votes, later, total) ensures IsPassed(rule, total, later, true) {
        PassedSurvives(rule, total, votes, later, true);
      }
    }
    if SureToPass(rule, total, votes) {
      assert Completes(votes, votes, total);
      var allAgainst := votes.(no := votes.no + total - votes.Total());
      assert Completes(votes, allAgainst, total);
    }
  }

  // ---------------------------------------------------------------- sure to fail

  /** Everyone still silent votes yes. */
  function AllFor(votes: Votes, total: nat): Votes
    requires Within(votes, total)
  {
    votes.(yes := votes.yes + total - votes.Total())
  }

  /** The count of Yes that suffices once everyone has voted. */
  function FinalNeed(rule: Threshold, opinions: nat): nat {
    match rule
    case AbsoluteCount(weight) => weight
    case AbsolutePercentage(percentage) => VotesNeeded(opinions, percentage)
    case ThresholdQuorum(threshold, _) => VotesNeeded(opinions, threshold)
  }

  /** Adding one opinion that is a Yes raises the need by at most one. */
  lemma NeedGrowsSlowly(opinions: nat, more: nat, fraction: Fraction)
    requires opinions <= more && fraction <= ONE
    ensures VotesNeeded(more, fraction) <= VotesNeeded(opinions, fraction) + (more - opinions)
  {
    VotesNeededProduct(opinions, fraction);
    VotesNeededProduct(more, fraction);
    MulMonotone(more - opinions, more - opinions, fraction, ONE);
    assert more * fraction == opinions * fraction + (more - opinions) * fraction;
  }

  /** If some completion passes then the one where every silent voter says yes does. */
  lemma AllForIsBest(rule: Threshold, total: nat, votes: Votes, later: Votes, expired: bool)
    requires rule.Valid(total) && Within(votes, total)
    requires Completes(votes, later, total)
    requires IsPassed(rule, total, later, expired)
    ensures IsPassed(rule, total, AllFor(votes, total), true)
  {
    var best := AllFor(votes, total);
    var opinions := total - best.abstain;
    match rule
    case AbsoluteCount(_) =>
    case AbsolutePercentage(p) =>
      NeedGrowsSlowly(total - later.abstain, opinions, p);
    case ThresholdQuorum(t, q) =>
      VotesNeededAtMostWeight(total, q);
      NeedGrowsSlowly(later.Total() - later.abstain, opinions, t);
      VotesNeededMonotone(later.Total() - later.abstain, total - later.abstain, t, t);
  }

  /** The best completion passes exactly when the opinions cover the votes against and the need. */
  lemma BestPassesIff(rule: Threshold, total: nat, votes: Votes)
    requires rule.Valid(total) && Within(votes, total)
    ensures IsPassed(rule, total, AllFor(votes, total), true) <==>
      votes.no + votes.veto + FinalNeed(rule, total - votes.abstain) <= total - votes.abstain
  {
    var best := AllFor(votes, total);
    assert best.Total() == total && best.yes == total - votes.abstain - votes.no - votes.veto;
    if rule.ThresholdQuorum? {
      VotesNeededAtMostWeight(total, rule.quorum);
    }
  }

  /** A poll is doomed exactly when the votes against and the final need exceed the opinions. */
  lemma SureToFailIff(rule: Threshold, total: nat, votes: Votes)
    requires rule.Valid(total) && Within(votes, total)
    ensures SureToFail(rule, total, votes) <==>
      votes.no + votes.veto + FinalNeed(rule, total - votes.abstain) > total - votes.abstain
  {
    hide IsPassed, FinalNeed;
    BestPassesIff(rule, total, votes);
    assert Completes(votes, AllFor(votes, total), total);
    forall later, expired | Completes(votes, later, total) && IsPassed(rule, total, later, expired)
      ensures IsPassed(rule, total, AllFor(votes, total), true)
    {
      AllForIsBest(rule, total, votes, later, expired);
    }
  }

  /** An early rejection is final. */
  lemma RejectedImpliesSureToFail(rule: Threshold, total: nat, votes: Votes)
    requires rule.Valid(total) && Within(votes, total)
    requires IsRejected(rule, total, votes, false)
    ensures SureToFail(rule, total, votes)
  {
    SureToFailIff(rule, total, votes);
    match rule
    case AbsoluteCount(_) =>
    case AbsolutePercentage(p) => VotesNeededComplement(total - votes.abstain, p);
    case ThresholdQuorum(t, _) => VotesNeededComplement(total - votes.abstain, t);
  }

  /** The No votes an open poll may have before it is reported as rejected. */
  function RejectionAllowance(rule: Threshold, total: nat, votes: Votes): nat
    requires rule.Valid(total) && votes.abstain <= total
  {
    match rule
    case AbsoluteCount(weight) => total - weight
    case AbsolutePercentage(percentage) => VotesNeeded(total - votes.abstain, ONE - percentage)
    case ThresholdQuorum(threshold, _) => VotesNeeded(total - votes.abstain, ONE - threshold)
  }

  /** Exactly which doomed polls early rejection misses: the No votes stay within the allowance,
      and it takes the vetoes, the abstentions under a fixed count, or the one vote that rounding
      can spare to make passing impossible. */
  lemma RejectionMissesIff(rule: Threshold, total: nat, votes: Votes)
    requires rule.Valid(total) && Within(votes, total)
    ensures SureToFail(rule, total, votes) && !IsRejected(rule, total, votes, false) <==>
      var opinions := total - votes.abstain;
      opinions - votes.veto - FinalNeed(rule, opinions) < votes.no <= RejectionAllowance(rule, total, votes)
  {
    SureToFailIff(rule, total, votes);
  }

  /** Three vetoes out of three doom a poll that is not reported as rejected. */
  lemma VetoesAreNotRejection()
    ensures
      var rule, votes := AbsoluteCount(1), Votes(0, 0, 0, 3);
      SureToFail(rule, 3, votes) && !IsRejected(rule, 3, votes, false)
  {
    SureToFailIff(AbsoluteCount(1), 3, Votes(0, 0, 0, 3));
  }

  /** Passed and rejected exclude each other, before expiry and at expiry. */
  lemma NeverPassedAndRejected(rule: Threshold, total: nat, votes: Votes, expired: bool)
    requires rule.Valid(total) && Within(votes, total)
    ensures !(IsPassed(rule, total, votes, expired) && IsRejected(rule, total, votes, expired))
  {
    match rule
    case AbsoluteCount(_) =>
    case AbsolutePercentage(p) => VotesNeededComplement(total - votes.abstain, p);
    case ThresholdQuorum(t, _) =>
      VotesNeededComplement(total - votes.abstain, t);
      VotesNeededComplement(votes.Total() - votes.abstain, t);
  }

  /** An early verdict is the verdict of every later tally, early or at expiry. */
  lemma EarlyVerdictIsFinal(rule: Threshold, total: nat, votes: Votes, later: Votes, expired: bool)
    requires rule.Valid(total) && Within(votes, total)
    requires Completes(votes, later, total)
    requires OpenStatus(rule, total, votes, false) != Open
    ensures OpenStatus(rule, total, later, expired) == OpenStatus(rule, total, votes, false)
  {
    if IsPassed(rule, total, votes, false) {
      PassedSurvives(rule, total, votes, later, expired);
    } else {
      RejectedImpliesSureToFail(rule, total, votes);
      assert !IsPassed(rule, total, later, expired);
      if !expired {
        match rule
        case AbsoluteCount(_) =>
        case AbsolutePercentage(p) =>
          VotesNeededMonotone(total - later.abstain, total - votes.abstain, ONE - p, ONE - p);
        case ThresholdQuorum(t, _) =>
          VotesNeededMonotone(total - later.abstain, total - votes.abstain, ONE - t, ONE - t);
      }
    }
  }
}
