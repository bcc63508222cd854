/**
 What the circle's promotion does to its rewards: it applies the correction for one change of points
 twice, once where a member becomes a voter and once in the caller.
 */
module DoubleCorrection {
  import opened Base
  import opened Sums
  import opened Distribution
  import opened EagerLedger
  import opened DistributionProofs
  import opened DistributionLimits

  /** One change of points, with its correction applied twice. */
  function TwiceCorrected(s: System, a: Addr, points: nat): Result<System, Error> {
    var diff := points - PointsOf(s.points, a);
    if s.total + diff < 0 then Err(Overflow)
    else
      match ApplyPointsCorrection(s.config, s.adjustments, [(a, diff)])
      case Err(e) => Err(e)
      case Ok(once) =>
        match ApplyPointsCorrection(s.config, once, [(a, diff)])
        case Err(e) => Err(e)
        case Ok(twice) => Ok(s.(adjustments := twice, points := s.points[a := points], total := s.total + diff))
  }

  /** What is stored of an account that lost `lost` units against another. */
  function Short(adjustments: Adjustments, a: Addr, lost: int): Adjustments
    requires a in adjustments
  {
    adjustments[a := adjustments[a].(pointsCorrection := adjustments[a].pointsCorrection - lost)]
  }

  /** The twice-corrected system is the right one, but for one account that is short of `lost`. */
  ghost predicate Twin(right: System, wrong: System, a: Addr, lost: int) {
    a in right.adjustments && wrong == right.(adjustments := Short(right.adjustments, a, lost))
  }

  lemma TwiceIsTwin(s: System, most: nat, a: Addr, points: nat)
    requires Inv(s, most) && points <= most
    ensures Handle(s, SetPoints(a, points)).Ok?
    ensures
      var lost := s.config.pointsPerPoints * (points - PointsOf(s.points, a));
      var r := TwiceCorrected(s, a, points);
      && (r.Ok? ==> Twin(Handle(s, SetPoints(a, points)).value, r.value, a, lost))
      && (r.Ok? <==> FitsI128(AdjustmentOf(s.adjustments, a).pointsCorrection - 2 * lost))
  {
    hide Inv, Corrected, Accrued;
    var diff := points - PointsOf(s.points, a);
    var next := SetPointsHandled(s, most, a, points);
    ChangeFits(s, most, a, points);
    FirstCorrection(s, most, a, points, next);
    SingleCorrection(s.config, s.adjustments, a, diff);
    SingleCorrection(s.config, next.adjustments, a, diff);
    SecondCorrection(s.config, next.adjustments[a], diff);
    var r := TwiceCorrected(s, a, points);
    if r.Ok? {
      assert r.value.adjustments == Short(next.adjustments, a, s.config.pointsPerPoints * diff);
    }
  }

  lemma ChangeFits(s: System, most: nat, a: Addr, points: nat)
    requires Inv(s, most) && points <= most
    ensures s.config.pointsPerPoints < I128
    ensures FitsI128(s.config.pointsPerPoints * (points - PointsOf(s.points, a)))
    ensures s.total + points - PointsOf(s.points, a) >= 0
  {
    PriceFits(s, most);
    ProductBound(s.config.pointsPerPoints, points - PointsOf(s.points, a), most);
    TotalCovers(s, most, a, points);
  }

  /** The first correction is the whole adjustment of the account. */
  lemma FirstCorrection(s: System, most: nat, a: Addr, points: nat, next: System)
    requires Inv(s, most) && points <= most && Handle(s, SetPoints(a, points)) == Ok(next)
    ensures
      var diff := points - PointsOf(s.points, a);
      var before := AdjustmentOf(s.adjustments, a);
      var after := before.(pointsCorrection := before.pointsCorrection - s.config.pointsPerPoints * diff);
      && Corrected(s.config, before, diff) == Ok(after)
      && next.adjustments == s.adjustments[a := after]
  {
    var diff := points - PointsOf(s.points, a);
    CorrectionExact(s, most, a, points);
    hide Inv, Corrected;
    SingleCorrection(s.config, s.adjustments, a, diff);
  }

  lemma SecondCorrection(c: Config, adjustment: Adjustment, diff: int)
    requires c.pointsPerPoints < I128 && FitsI128(c.pointsPerPoints * diff)
    ensures
      var correction := adjustment.pointsCorrection - c.pointsPerPoints * diff;
      Corrected(c, adjustment, diff) ==
        if FitsI128(correction) then Ok(adjustment.(pointsCorrection := correction)) else Err(Overflow)
  {
  }

  /** Correcting one change twice succeeds and keeps what the account has accrued exactly if the price
      of a point is still zero. */
  lemma CorrectTwiceIff(s: System, most: nat, a: Addr, points: nat)
    requires Inv(s, most) && points <= most && points != PointsOf(s.points, a)
    ensures
      var r := TwiceCorrected(s, a, points);
      r.Ok? && Accrued(r.value, a) == Accrued(s, a) <==> s.config.pointsPerPoints == 0
  {
    TwiceIsTwin(s, most, a, points);
    var diff := points - PointsOf(s.points, a);
    var next := SetPointsHandled(s, most, a, points);
    var r := TwiceCorrected(s, a, points);
    if r.Ok? {
      assert Accrued(r.value, a) == Accrued(s, a) - s.config.pointsPerPoints * diff;
      NonZeroProduct(s.config.pointsPerPoints, diff);
    }
    if s.config.pointsPerPoints == 0 {
      assert s.config.pointsPerPoints * diff == 0;
      CorrectionExact(s, most, a, points);
    }
  }

  lemma NonZeroProduct(price: int, diff: int)
    requires diff != 0
    ensures price * diff == 0 <==> price == 0
  {
  }

  // ---------------------------------------------------------------- in the runs that follow

  /** The action neither changes the member's points nor draws his rewards. */
  predicate LeavesAlone(action: Action, a: Addr) {
    match action
    case Fund(_) => true
    case Distribute => true
    case Withdraw(owner) => owner != a
    case SetPoints(owner, _) => owner != a
  }

  lemma ShortCommutes(adjustments: Adjustments, a: Addr, lost: int, b: Addr, x: Adjustment)
    requires a in adjustments && b != a
    ensures Short(adjustments[b := x], a, lost) == Short(adjustments, a, lost)[b := x]
    ensures AdjustmentOf(Short(adjustments, a, lost), b) == AdjustmentOf(adjustments, b)
  {
  }

  lemma TwinWithdrawal(right: System, wrong: System, a: Addr, lost: int, b: Addr)
    requires Twin(right, wrong, a, lost) && b != a
    ensures Twin(Step(right, Withdraw(b)), Step(wrong, Withdraw(b)), a, lost)
    ensures Step(right, Withdraw(b)).adjustments[a] == right.adjustments[a]
    ensures Step(right, Withdraw(b)).points == right.points
  {
    hide WithdrawableRewards, Short;
    var adjustment := AdjustmentOf(right.adjustments, b);
    ShortCommutes(right.adjustments, a, lost, b, adjustment);
    var rewards := WithdrawableRewards(PointsOf(right.points, b), right.config, adjustment);
    if rewards.Ok? {
      var paid := adjustment.(withdrawnFunds := adjustment.withdrawnFunds + rewards.value);
      ShortCommutes(right.adjustments, a, lost, b, paid);
    }
  }

  lemma TwinSetPoints(right: System, wrong: System, a: Addr, lost: int, b: Addr, points: nat)
    requires Twin(right, wrong, a, lost) && b != a
    ensures
      var action := SetPoints(b, points);
      && Twin(Step(right, action), Step(wrong, action), a, lost)
      && Step(right, action).adjustments[a] == right.adjustments[a]
      && PointsOf(Step(right, action).points, a) == PointsOf(right.points, a)
  {
    hide Corrected, Short, ApplyPointsCorrection;
    var diff := points - PointsOf(right.points, b);
    SingleCorrection(right.config, right.adjustments, b, diff);
    SingleCorrection(wrong.config, wrong.adjustments, b, diff);
    var adjustment := AdjustmentOf(right.adjustments, b);
    ShortCommutes(right.adjustments, a, lost, b, adjustment);
    var corrected := Corrected(right.config, adjustment, diff);
    if corrected.Ok? {
      ShortCommutes(right.adjustments, a, lost, b, corrected.value);
    }
  }

  lemma TwinStep(right: System, wrong: System, a: Addr, lost: int, action: Action)
    requires Twin(right, wrong, a, lost) && LeavesAlone(action, a)
    ensures Twin(Step(right, action), Step(wrong, action), a, lost)
    ensures Step(right, action).adjustments[a] == right.adjustments[a]
    ensures PointsOf(Step(right, action).points, a) == PointsOf(right.points, a)
  {
    hide WithdrawableRewards, DistributeRewards, ApplyPointsCorrection, Short;
    match action
    case Fund(_) =>
    case Distribute =>
    case Withdraw(b) => TwinWithdrawal(right, wrong, a, lost, b);
    case SetPoints(b, points) => TwinSetPoints(right, wrong, a, lost, b, points);
  }

  lemma {:induction false} TwinRun(right: System, wrong: System, a: Addr, lost: int, actions: seq<Action>)
    requires Twin(right, wrong, a, lost) && forall i :: 0 <= i < |actions| ==> LeavesAlone(actions[i], a)
    ensures Twin(Run(right, actions), Run(wrong, actions), a, lost)
    ensures Run(right, actions).adjustments[a] == right.adjustments[a]
    ensures PointsOf(Run(right, actions).points, a) == PointsOf(right.points, a)
    decreases |actions|
  {
    if actions == [] {
    } else {
      hide Step, Twin;
      TwinStep(right, wrong, a, lost, actions[0]);
      TwinRun(Step(right, actions[0]), Step(wrong, actions[0]), a, lost, actions[1..]);
    }
  }

  /** The account that is short can draw exactly if, without what it lost, it has accrued what it drew. */
  lemma TwinWithdraws(right: System, wrong: System, most: nat, a: Addr, lost: nat)
    requires Inv(right, most) && Twin(right, wrong, a, lost) && lost < I128
    ensures Handle(wrong, Withdraw(a)).Ok? <==>
      Accrued(right, a) - lost >= right.adjustments[a].withdrawnFunds * SCALE
    ensures Handle(wrong, Withdraw(a)).Err? ==> Handle(wrong, Withdraw(a)) == Err(Overflow)
  {
    hide WithdrawableRewards, Inv, Ceiling, Short;
    TwinAccrual(right, wrong, most, a, lost);
    var c, points, adjustment := right.config, PointsOf(right.points, a), wrong.adjustments[a];
    var earned := Accrued(right, a) - lost;
    DrawnWithinDistributed(right, most, a);
    OwedToAccount(right, most, a);
    ShortRewards(c, points, adjustment, earned);
    ShortArithmetic(earned, lost, adjustment.withdrawnFunds, c.withdrawableTotal, c.distributedTotal);
  }

  lemma TwinAccrual(right: System, wrong: System, most: nat, a: Addr, lost: nat)
    requires Inv(right, most) && Twin(right, wrong, a, lost) && lost < I128
    ensures a in wrong.adjustments && wrong.adjustments[a].withdrawnFunds == right.adjustments[a].withdrawnFunds
    ensures
      var c, points := right.config, PointsOf(right.points, a);
      && 0 <= c.pointsPerPoints * points < I128
      && FitsI128(Accrued(right, a) - lost)
      && Accrued(right, a) - lost == c.pointsPerPoints * points + wrong.adjustments[a].pointsCorrection
  {
    PriceFits(right, most);
    ProductBound(right.config.pointsPerPoints, PointsOf(right.points, a), most);
    assert 0 <= Accrued(right, a) <= Ceiling(right.config.pointsPerPoints, most);
  }

  /** An amount read from a negative word is more than there is. */
  lemma ShortArithmetic(earned: int, lost: nat, drawn: nat, pool: nat, distributed: nat)
    requires FitsI128(earned) && drawn + pool <= distributed && distributed * SCALE < I128
    requires (earned + lost) / SCALE - drawn <= pool
    ensures
      var word := if earned >= 0 then earned else earned + U128;
      var amount := word / SCALE - drawn;
      (0 <= amount && (amount == 0 || (drawn + amount < U128 && amount <= pool))) <==> earned >= drawn * SCALE
  {
    if earned < 0 {
      assert (earned + U128) / SCALE >= I128 / SCALE;
    } else {
      assert earned / SCALE <= (earned + lost) / SCALE;
    }
  }

  lemma DrawnWithinDistributed(s: System, most: nat, a: Addr)
    requires Inv(s, most) && a in s.adjustments
    ensures s.adjustments[a].withdrawnFunds + s.config.withdrawableTotal <= s.config.distributedTotal
    ensures s.config.distributedTotal * SCALE < I128 && s.config.withdrawableTotal <= s.balance
    ensures 0 <= Accrued(s, a) < I128
  {
    var l := Abs(s);
    assert Payments(l.accounts)[a] == s.adjustments[a].withdrawnFunds;
    SumAtLeastEntry(Payments(l.accounts), a);
    ScaleBound(0, s.config.distributedTotal * SCALE, most);
    PriceFits(s, most);
    assert 0 <= Accrued(s, a) <= Ceiling(s.config.pointsPerPoints, most);
  }

  lemma OwedToAccount(s: System, most: nat, a: Addr)
    requires Inv(s, most) && a in s.adjustments
    ensures 0 <= Accrued(s, a) / SCALE - s.adjustments[a].withdrawnFunds <= s.config.withdrawableTotal
  {
    assert Abs(s).accounts[a] == Account(Accrued(s, a), s.adjustments[a].withdrawnFunds);
    OwedWithinPool(Abs(s), a);
  }

  /** What the fixed-width code makes of an account that has accrued `earned`, perhaps a negative amount. */
  lemma ShortRewards(c: Config, points: nat, adjustment: Adjustment, earned: int)
    requires 0 <= c.pointsPerPoints * points < I128
    requires earned == c.pointsPerPoints * points + adjustment.pointsCorrection && FitsI128(earned)
    ensures
      var word := if earned >= 0 then earned else earned + U128;
      WithdrawableRewards(points, c, adjustment) ==
        if word / SCALE < adjustment.withdrawnFunds then Err(Overflow) else Ok(word / SCALE - adjustment.withdrawnFunds)
  {
  }

  // ---------------------------------------------------------------- a promoted member

  /** A member is promoted from 0 points to 1 with the correction applied twice. After any bounded run in
      which he neither draws nor changes, he can draw exactly if what he has truly accrued and not
      drawn is worth the price at his promotion; else his withdrawal fails. */
  lemma PromotedTwiceWithdrawsIff(s: System, most: nat, a: Addr, actions: seq<Action>)
    requires Inv(s, most) && PointsOf(s.points, a) == 0 && TwiceCorrected(s, a, 1).Ok?
    requires forall i :: 0 <= i < |actions| ==> LeavesAlone(actions[i], a)
    requires Handle(s, SetPoints(a, 1)).Ok? && InBounds(Abs(Handle(s, SetPoints(a, 1)).value), actions, most)
    ensures
      var right := Run(Handle(s, SetPoints(a, 1)).value, actions);
      var wrong := Run(TwiceCorrected(s, a, 1).value, actions);
      && wrong.config == right.config
      && (Handle(wrong, Withdraw(a)).Ok? <==>
            Accrued(right, a) - AdjustmentOf(right.adjustments, a).withdrawnFunds * SCALE >= s.config.pointsPerPoints)
      && (Handle(wrong, Withdraw(a)).Err? ==> Handle(wrong, Withdraw(a)) == Err(Overflow))
      && Handle(right, Withdraw(a)).Ok?
  {
    hide Twin, Inv, Handle, TwiceCorrected, Run, InBounds, Accrued;
    var right, wrong := Handle(s, SetPoints(a, 1)).value, TwiceCorrected(s, a, 1).value;
    var lost := s.config.pointsPerPoints;
    PromotionIsTwin(s, most, a);
    PromotionKeepsInv(s, most, a, actions);
    RunRefines(right, most, actions);
    TwinRun(right, wrong, a, lost, actions);
    TwinFields(Run(right, actions), Run(wrong, actions), a, lost);
    PriceFits(s, most);
    TwinWithdraws(Run(right, actions), Run(wrong, actions), most, a, lost);
    WithdrawRefines(Run(right, actions), most, a);
  }

  lemma TwinFields(right: System, wrong: System, a: Addr, lost: int)
    requires Twin(right, wrong, a, lost)
    ensures wrong.config == right.config && a in right.adjustments
  {
  }

  lemma PromotionIsTwin(s: System, most: nat, a: Addr)
    requires Inv(s, most) && PointsOf(s.points, a) == 0 && TwiceCorrected(s, a, 1).Ok?
    ensures Handle(s, SetPoints(a, 1)).Ok?
    ensures Twin(Handle(s, SetPoints(a, 1)).value, TwiceCorrected(s, a, 1).value, a, s.config.pointsPerPoints)
  {
    hide Handle, TwiceCorrected, Twin, Priced, Conserved, Fits;
    TwiceIsTwin(s, most, a, 1);
    assert s.config.pointsPerPoints * (1 - 0) == s.config.pointsPerPoints;
  }

  lemma PromotionKeepsInv(s: System, most: nat, a: Addr, actions: seq<Action>)
    requires Inv(s, most) && Handle(s, SetPoints(a, 1)).Ok?
    requires InBounds(Abs(Handle(s, SetPoints(a, 1)).value), actions, most)
    ensures Inv(Handle(s, SetPoints(a, 1)).value, most)
  {
    hide Handle, Priced, Conserved, Fits, Abs;
    SetPointsRefines(s, most, a, 1);
    StepRefines(s, most, SetPoints(a, 1));
  }

  /** For a member who never had points: the promotion itself succeeds exactly below a price of 2^126
      units, and then he can draw exactly once the price has doubled since. */
  lemma NewVoterWithdrawsIff(s: System, most: nat, a: Addr, actions: seq<Action>)
    requires Inv(s, most) && a !in Abs(s).accounts
    requires forall i :: 0 <= i < |actions| ==> LeavesAlone(actions[i], a)
    requires Handle(s, SetPoints(a, 1)).Ok? && InBounds(Abs(Handle(s, SetPoints(a, 1)).value), actions, most)
    ensures TwiceCorrected(s, a, 1).Ok? <==> 2 * s.config.pointsPerPoints <= I128
    ensures TwiceCorrected(s, a, 1).Ok? ==>
      var wrong := Run(TwiceCorrected(s, a, 1).value, actions);
      Handle(wrong, Withdraw(a)).Ok? <==> wrong.config.pointsPerPoints >= 2 * s.config.pointsPerPoints
  {
    hide Twin, Inv, Run, InBounds, TwiceCorrected;
    UnknownAccount(s, a);
    NewVoterAccrues(s, most, a, actions);
    assert s.config.pointsPerPoints * (1 - 0) == s.config.pointsPerPoints;
    TwiceIsTwin(s, most, a, 1);
    if TwiceCorrected(s, a, 1).Ok? {
      PromotedTwiceWithdrawsIff(s, most, a, actions);
    }
  }

  /** Corrected once, he accrues what the price gains. */
  lemma NewVoterAccrues(s: System, most: nat, a: Addr, actions: seq<Action>)
    requires Inv(s, most) && a !in Abs(s).accounts
    requires forall i :: 0 <= i < |actions| ==> LeavesAlone(actions[i], a)
    requires Handle(s, SetPoints(a, 1)).Ok?
    ensures 1 <= most
    ensures
      var right := Run(Handle(s, SetPoints(a, 1)).value, actions);
      && Accrued(right, a) == right.config.pointsPerPoints - s.config.pointsPerPoints
      && AdjustmentOf(right.adjustments, a).withdrawnFunds == 0
  {
    UnknownAccount(s, a);
    var right := SetPointsHandled(s, most, a, 1);
    assert PointsOf(right.points, a) == 1;
    assert s.config.pointsPerPoints * 1 + right.adjustments[a].pointsCorrection == 0;
    hide Inv, Handle;
    assert Twin(right, right, a, 0) by {
      assert Short(right.adjustments, a, 0) == right.adjustments;
    }
    TwinRun(right, right, a, 0, actions);
  }

  /** The run that shows it: 1000 tokens go to the only voter, a second one is promoted, and his first
      withdrawal fails, though nothing is wrong with his promotion if corrected once. */
  lemma FreshVoterCannotWithdraw()
    ensures
      var s := Run(Start(map[0 := 1], 1, 1000), [Action.Distribute]);
      && TwiceCorrected(s, 1, 1).Ok?
      && Handle(TwiceCorrected(s, 1, 1).value, Withdraw(1)) == Err(Overflow)
      && Withdrawable(Step(s, SetPoints(1, 1)), 1) == Ok(0)
  {
    hide Run, Handle, TwiceCorrected, Start, WithdrawableRewards, Step;
    AfterFirstDistribution();
    FreshPromotion(Start(map[0 := 1], 1, 1000).(config := FIRST_CONFIG));
    FreshWithdrawals(Start(map[0 := 1], 1, 1000).(config := FIRST_CONFIG));
  }

  const FIRST_CONFIG := Config(1000 * SCALE, 0, 1000, 1000)

  lemma AfterFirstDistribution()
    ensures
      var start := Start(map[0 := 1], 1, 1000);
      Run(start, [Action.Distribute]) == start.(config := FIRST_CONFIG)
  {
    hide Handle;
    EdgePrice(1000);
    assert [Action.Distribute][1..] == [];
  }

  /** The second voter's adjustment, with the correction applied `times` times. */
  function Promoted(s: System, times: nat): System {
    s.(adjustments := map[1 := Adjustment(-(times * FIRST_CONFIG.pointsPerPoints), 0)],
       points := s.points[1 := 1], total := s.total + 1)
  }

  lemma FreshPromotion(s: System)
    requires s == Start(map[0 := 1], 1, 1000).(config := FIRST_CONFIG)
    ensures TwiceCorrected(s, 1, 1) == Ok(Promoted(s, 2))
    ensures Step(s, SetPoints(1, 1)) == Promoted(s, 1)
  {
    var price: int := FIRST_CONFIG.pointsPerPoints;
    var once := map[1 := Adjustment(-price, 0)];
    hide ApplyPointsCorrection;
    SingleCorrection(s.config, map[], 1, 1);
    SingleCorrection(s.config, once, 1, 1);
    assert s.adjustments[1 := once[1]] == once;
    assert once[1 := Adjustment(-2 * price, 0)] == Promoted(s, 2).adjustments;
  }

  lemma FreshWithdrawals(s: System)
    requires s == Start(map[0 := 1], 1, 1000).(config := FIRST_CONFIG)
    ensures Handle(Promoted(s, 2), Withdraw(1)) == Err(Overflow)
    ensures Withdrawable(Promoted(s, 1), 1) == Ok(0)
  {
    hide WithdrawableRewards;
    var price: int := FIRST_CONFIG.pointsPerPoints;
    ShortRewards(s.config, 1, Adjustment(-2 * price, 0), -price);
    ShortRewards(s.config, 1, Adjustment(-price, 0), 0);
  }
}
