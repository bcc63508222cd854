/**
 Where the distribution's guarantees end: the largest amount that can be distributed, and what
 becomes of a member whose points were corrected twice for one promotion.
 */
module DistributionLimits {
  import opened Base
  import opened Sums
  import opened Distribution
  import opened EagerLedger
  import opened DistributionProofs

  // ---------------------------------------------------------------- the largest amount

  /** No step of the run meets an overflow. */
  ghost predicate OverflowFree(s: System, actions: seq<Action>)
    decreases |actions|
  {
    actions == [] || (Handle(s, actions[0]) != Err(Overflow) && OverflowFree(Step(s, actions[0]), actions[1..]))
  }

  /** A run from the first holders' points, with points of at most `most` and totals in 64 bits, in
      which no more than `tokens` are to be distributed. */
  ghost predicate Admissible(points: map<Addr, nat>, total: nat, balance: nat, most: nat, actions: seq<Action>,
                             tokens: nat)
  {
    && total == Sum(points) && PointsAtMost(points, most)
    && PointsInRange(Abs(Start(points, total, balance)), actions, most)
    && EagerRun(Abs(Start(points, total, balance)), actions).distributed <= tokens
  }

  lemma {:induction false} BoundedIsOverflowFree(s: System, most: nat, actions: seq<Action>)
    requires Inv(s, most) && InBounds(Abs(s), actions, most)
    ensures OverflowFree(s, actions)
    decreases |actions|
  {
    if actions == [] {
    } else {
      StepRefines(s, most, actions[0]);
      BoundedIsOverflowFree(Step(s, actions[0]), most, actions[1..]);
    }
  }

  lemma EnoughRoom(points: map<Addr, nat>, total: nat, balance: nat, most: nat, actions: seq<Action>, tokens: nat)
    requires Admissible(points, total, balance, most, actions, tokens)
    requires 1 <= most && tokens * SCALE * most < I128
    ensures OverflowFree(Start(points, total, balance), actions)
  {
    var start := Start(points, total, balance);
    StartInv(points, total, balance, most);
    MulMonotone(EagerRun(Abs(start), actions).distributed * SCALE, tokens * SCALE, most, most);
    BoundAtTheEnd(Abs(start), actions, most);
    BoundedIsOverflowFree(start, most, actions);
  }

  /** The fewest tokens that are too many. */
  lemma FewestTooMany(tokens: nat, most: nat) returns (fewest: nat)
    requires 1 <= most && tokens * SCALE * most >= I128
    ensures 1 <= fewest <= tokens && fewest * SCALE * most >= I128
    ensures (fewest - 1) * SCALE * most < I128
  {
    fewest := tokens;
    while (fewest - 1) * SCALE * most >= I128
      invariant 1 <= fewest <= tokens && fewest * SCALE * most >= I128
      decreases fewest
    {
      fewest := fewest - 1;
    }
  }

  /** One holder of one point, all tokens distributed to him, and then a second member. */
  function EdgeStart(tokens: nat): System {
    Start(map[0 := 1], 1, tokens)
  }

  function EdgeRun(most: nat): seq<Action> {
    [Action.Distribute, SetPoints(1, most)]
  }

  lemma OnePoint()
    ensures Sum(map[0 := 1]) == 1
  {
    var none: map<Addr, int> := map[];
    assert none[0 := 1] == map[0 := 1];
    SumUpdate(none, 0, 1);
  }

  lemma EdgeAdmissible(tokens: nat, most: nat)
    requires 1 <= tokens && 1 <= most < U64 - 1
    ensures Admissible(map[0 := 1], 1, tokens, most, EdgeRun(most), tokens)
  {
    OnePoint();
    var l0 := Abs(EdgeStart(tokens));
    var actions := EdgeRun(most);
    var l1 := EagerStep(l0, actions[0]);
    var l2 := EagerStep(l1, actions[1]);
    assert l1.distributed == tokens && l1.points == map[0 := 1];
    SumUpdate(l1.points, 1, most);
    assert Sum(l2.points) == 1 + most;
    assert actions[1..] == [SetPoints(1, most)] && actions[1..][1..] == [];
    assert EagerRun(l2, []) == l2;
    assert EagerRun(l1, actions[1..]) == l2;
    assert PointsInRange(l2, [], most);
    assert PointsInRange(l1, actions[1..], most);
  }

  /** The price after distributing everything to one point. */
  lemma EdgePrice(tokens: nat)
    requires 1 <= tokens && tokens * SCALE <= I128
    ensures Handle(EdgeStart(tokens), Action.Distribute) ==
      Ok(EdgeStart(tokens).(config := Config(tokens * SCALE, 0, tokens, tokens)))
  {
    assert ShiftLeft(tokens) == tokens * SCALE;
  }

  lemma EdgeOverflows(tokens: nat, most: nat)
    requires 1 <= tokens && 1 <= most && tokens * SCALE <= I128 && tokens * SCALE * most >= I128
    ensures !OverflowFree(EdgeStart(tokens), EdgeRun(most))
  {
    var actions := EdgeRun(most);
    EdgePrice(tokens);
    var s := Step(EdgeStart(tokens), actions[0]);
    assert actions[1..][0] == actions[1] == SetPoints(1, most);
    SingleCorrection(s.config, s.adjustments, 1, most);
    EdgeCorrection(s.config, most);
    assert Handle(s, actions[1]) == Err(Overflow);
    assert !OverflowFree(s, actions[1..]);
  }

  lemma EdgeCorrection(c: Config, most: nat)
    requires 1 <= most && c.pointsPerPoints <= I128 && c.pointsPerPoints * most >= I128
    ensures Corrected(c, NO_ADJUSTMENT, most) == Err(Overflow)
  {
    if c.pointsPerPoints == I128 {
      assert AsI128(c.pointsPerPoints) == -I128;
      assert -I128 * most <= -I128;
    }
  }

  /** The amounts that can safely be distributed: no run that distributes at most this many tokens, with
      points of at most `most`, meets an overflow, if and only if the tokens, scaled and held `most`
      times, are a positive signed 128-bit number. */
  lemma OverflowFreeIff(tokens: nat, most: nat)
    requires 1 <= most < U64 - 1
    ensures (forall points, total, balance, actions :: Admissible(points, total, balance, most, actions, tokens) ==>
               OverflowFree(Start(points, total, balance), actions))
            <==> tokens * SCALE * most < I128
  {
    hide Admissible, OverflowFree, Start;
    if tokens * SCALE * most < I128 {
      forall points, total, balance, actions | Admissible(points, total, balance, most, actions, tokens)
        ensures OverflowFree(Start(points, total, balance), actions)
      {
        EnoughRoom(points, total, balance, most, actions, tokens);
      }
    } else {
      var fewest := FewestTooMany(tokens, most);
      FewestInRange(fewest, most);
      EdgeAdmissible(fewest, most);
      FewerIsAdmissible(map[0 := 1], 1, fewest, most, EdgeRun(most), fewest, tokens);
      EdgeOverflows(fewest, most);
      EdgeIsStart(fewest);
    }
  }

  lemma EdgeIsStart(tokens: nat)
    ensures EdgeStart(tokens) == Start(map[0 := 1], 1, tokens)
  {
  }

  lemma FewerIsAdmissible(points: map<Addr, nat>, total: nat, balance: nat, most: nat, actions: seq<Action>,
                          tokens: nat, more: nat)
    requires Admissible(points, total, balance, most, actions, tokens) && tokens <= more
    ensures Admissible(points, total, balance, most, actions, more)
  {
  }

  lemma FewestInRange(fewest: nat, most: nat)
    requires 1 <= fewest && 1 <= most && (fewest - 1) * SCALE * most < I128
    ensures fewest * SCALE <= I128
  {
    MulMonotone((fewest - 1) * SCALE, (fewest - 1) * SCALE, 1, most);
    assert (fewest - 1) * SCALE < I128;
  }

  /** With points of 0 and 1 the bound is 2^95 tokens, not the 2^96 one might read off the scaling. */
  lemma BoundIsTight(tokens: nat)
    ensures (forall points, total, balance, actions :: Admissible(points, total, balance, 1, actions, tokens) ==>
               OverflowFree(Start(points, total, balance), actions))
            <==> tokens < 0x8000_0000_0000_0000_0000_0000
  {
    OverflowFreeIff(tokens, 1);
  }
}
