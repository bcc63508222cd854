/**
 The fixed-width lazy distribution refines the eager ledger.

 The client's duty is explicit: `total` follows the points, and `SetPoints` makes exactly one
 correction for each change. The bank balance is part of the system; withdrawals leave it.
 */
module DistributionProofs {
  import opened Base
  import opened Sums
  import opened Distribution
  import opened EagerLedger

  datatype System = System(
    config: Config,
    adjustments: Adjustments,
    points: map<Addr, nat>,
    total: nat,
    balance: nat)

  function Handle(s: System, action: Action): Result<System, Error> {
    match action
    case Fund(amount) => Ok(s.(balance := s.balance + amount))
    case Distribute =>
      (match DistributeRewards(s.config, s.balance, s.total)
       case Err(e) => Err(e)
       case Ok((config, _)) => Ok(s.(config := config)))
    case Withdraw(a) =>
      (match WithdrawRewards(s.config, s.adjustments, a, PointsOf(s.points, a))
       case Err(e) => Err(e)
       case Ok((config, adjustments, amount)) =>
         if s.balance < amount then Err(Overflow)
         else Ok(s.(config := config, adjustments := adjustments, balance := s.balance - amount)))
    case SetPoints(a, points) =>
      var diff := points - PointsOf(s.points, a);
      if s.total + diff < 0 then Err(Overflow)
      else
        match ApplyPointsCorrection(s.config, s.adjustments, [(a, diff)])
        case Err(e) => Err(e)
        case Ok(adjustments) =>
          Ok(s.(adjustments := adjustments, points := s.points[a := points], total := s.total + diff))
  }

  function Step(s: System, action: Action): System {
    match Handle(s, action)
    case Ok(next) => next
    case Err(_) => s
  }

  function Run(s: System, actions: seq<Action>): System
    decreases |actions|
  {
    if actions == [] then s else Run(Step(s, actions[0]), actions[1..])
  }

  // ---------------------------------------------------------------- abstraction

  /** Points times price plus correction: what the account has earned, in 1/SCALE of a token. */
  function Accrued(s: System, a: Addr): int {
    s.config.pointsPerPoints * PointsOf(s.points, a) + AdjustmentOf(s.adjustments, a).pointsCorrection
  }

  function Abs(s: System): Ledger {
    Ledger(
      s.points,
      map a | a in s.points.Keys + s.adjustments.Keys ::
        Account(Accrued(s, a), AdjustmentOf(s.adjustments, a).withdrawnFunds),
      s.config.pointsLeftover,
      s.config.distributedTotal,
      s.config.withdrawableTotal,
      s.balance)
  }

  /** The most an account of `most` points can have earned at a price. */
  function Ceiling(price: nat, most: nat): nat {
    price * most
  }

  /** The arithmetic invariant while no account holds more than `most` points. */
  ghost predicate Priced(s: System, most: nat) {
    && s.total == Sum(s.points)
    && s.config.pointsPerPoints + s.config.pointsLeftover <= s.config.distributedTotal * SCALE
    && (forall a :: PointsOf(s.points, a) <= most)
    && (forall a :: 0 <= Accrued(s, a) <= Ceiling(s.config.pointsPerPoints, most))
  }

  /** The widths suffice: everything ever distributed, scaled and held `most` times, is a positive
      signed 128-bit number, and the points fit 64 bits. For 0/1 points: below 2^95 tokens. */
  ghost predicate Fits(l: Ledger, most: nat) {
    Ceiling(l.distributed * SCALE, most) < I128 && Sum(l.points) < U64
  }

  /** The bounds hold along the whole eager run. */
  ghost predicate InBounds(l: Ledger, actions: seq<Action>, most: nat)
    decreases |actions|
  {
    && Fits(l, most)
    && (actions != [] ==>
          && (actions[0].SetPoints? ==> actions[0].points <= most)
          && InBounds(EagerStep(l, actions[0]), actions[1..], most))
  }

  ghost predicate Inv(s: System, most: nat) {
    Priced(s, most) && Conserved(Abs(s)) && Fits(Abs(s), most) && 1 <= most
  }

  /** For x in [-most, most] a product with the price stays within the price times `most`. */
  lemma ProductBound(price: nat, x: int, most: nat)
    requires -(most as int) <= x <= most
    ensures -(price * most) <= price * x <= price * most
    ensures 0 <= x ==> 0 <= price * x
  {
    assert 0 <= price * (most - x) == price * most - price * x;
    assert 0 <= price * (most + x) == price * most + price * x;
    if 0 <= x {
      assert 0 <= price * x;
    }
  }

  lemma ScaleBound(price: nat, scaled: nat, most: nat)
    requires price <= scaled && 1 <= most
    ensures price * most <= scaled * most && scaled <= scaled * most
  {
    assert 0 <= (scaled - price) * most == scaled * most - price * most;
    assert 0 <= scaled * (most - 1) == scaled * most - scaled;
  }

  /** Under the bounds the price and everything accrued is a positive signed word. */
  lemma PriceFits(s: System, most: nat)
    requires Inv(s, most)
    ensures Ceiling(s.config.pointsPerPoints, most) < I128
    ensures s.config.pointsPerPoints < I128
    ensures s.config.pointsPerPoints + s.config.pointsLeftover < I128
  {
    ScaleBound(s.config.pointsPerPoints, s.config.distributedTotal * SCALE, most);
  }

  // ---------------------------------------------------------------- withdrawing

  lemma CastsExact(points: nat, c: Config, adjustment: Adjustment, most: nat)
    requires points <= most && Ceiling(c.pointsPerPoints, most) < I128
    requires 0 <= c.pointsPerPoints * points + adjustment.pointsCorrection < I128
    requires adjustment.withdrawnFunds <= (c.pointsPerPoints * points + adjustment.pointsCorrection) / SCALE
    ensures WithdrawableRewards(points, c, adjustment) ==
      Ok((c.pointsPerPoints * points + adjustment.pointsCorrection) / SCALE - adjustment.withdrawnFunds)
  {
    ProductBound(c.pointsPerPoints, points, most);
  }

  /** An account the ledger does not know has accrued nothing. */
  lemma UnknownAccount(s: System, a: Addr)
    requires a !in Abs(s).accounts
    ensures Accrued(s, a) == 0 && AdjustmentOf(s.adjustments, a) == NO_ADJUSTMENT && PointsOf(s.points, a) == 0
  {
    assert s.config.pointsPerPoints * 0 == 0;
  }

  /** Both casts and the shift keep the value: the computation is exact. */
  lemma WithdrawableExact(s: System, most: nat, a: Addr)
    requires Inv(s, most)
    ensures WithdrawableRewards(PointsOf(s.points, a), s.config, AdjustmentOf(s.adjustments, a)) ==
      Ok(Accrued(s, a) / SCALE - AdjustmentOf(s.adjustments, a).withdrawnFunds)
    ensures Accrued(s, a) / SCALE >= AdjustmentOf(s.adjustments, a).withdrawnFunds
  {
    PriceFits(s, most);
    var accrued := Accrued(s, a);
    assert 0 <= accrued <= Ceiling(s.config.pointsPerPoints, most);
    if a in Abs(s).accounts {
      assert Abs(s).accounts[a] == Account(accrued, AdjustmentOf(s.adjustments, a).withdrawnFunds);
    } else {
      UnknownAccount(s, a);
    }
    CastsExact(PointsOf(s.points, a), s.config, AdjustmentOf(s.adjustments, a), most);
  }

  lemma WithdrawRefines(s: System, most: nat, a: Addr)
    requires Inv(s, most)
    ensures
      var r := Handle(s, Withdraw(a));
      && r.Ok?
      && Abs(r.value) == EagerWithdraw(Abs(s), a)
      && Priced(r.value, most)
  {
    WithdrawableExact(s, most, a);
    if a in Abs(s).accounts {
      WithdrawKnown(s, most, a);
    } else {
      UnknownAccount(s, a);
      assert Handle(s, Withdraw(a)) == Ok(s);
    }
  }

  lemma WithdrawKnown(s: System, most: nat, a: Addr)
    requires Inv(s, most) && a in Abs(s).accounts
    requires WithdrawableRewards(PointsOf(s.points, a), s.config, AdjustmentOf(s.adjustments, a)) ==
      Ok(Owed(Abs(s).accounts[a]))
    ensures
      var r := Handle(s, Withdraw(a));
      && r.Ok?
      && Abs(r.value) == EagerWithdraw(Abs(s), a)
      && Priced(r.value, most)
  {
    hide WithdrawableRewards, Accrued, Ceiling;
    OwedWithinPool(Abs(s), a);
    WithdrawnFits(s, most, a);
    var owed := Owed(Abs(s).accounts[a]);
    WithdrawHandled(s, a, owed);
    WithdrawnAbs(s, a, owed);
    WithdrawnPriced(s, most, a, owed);
  }

  /** The system after `owed` tokens were paid to `a`. */
  function PaidTo(s: System, a: Addr, owed: nat): System
    requires owed <= s.config.withdrawableTotal <= s.balance
  {
    var adjustment := AdjustmentOf(s.adjustments, a);
    s.(config := s.config.(withdrawableTotal := s.config.withdrawableTotal - owed),
       adjustments := if owed == 0 then s.adjustments
         else s.adjustments[a := adjustment.(withdrawnFunds := adjustment.withdrawnFunds + owed)],
       balance := s.balance - owed)
  }

  lemma WithdrawnAbs(s: System, a: Addr, owed: nat)
    requires a in Abs(s).accounts && owed == Owed(Abs(s).accounts[a]) && owed <= s.config.withdrawableTotal <= s.balance
    ensures Abs(PaidTo(s, a, owed)) == EagerWithdraw(Abs(s), a)
  {
    hide Accrued;
    WithdrawnAccounts(s, PaidTo(s, a, owed), a, owed);
  }

  lemma WithdrawnPriced(s: System, most: nat, a: Addr, owed: nat)
    requires Priced(s, most) && a in Abs(s).accounts && owed <= s.config.withdrawableTotal <= s.balance
    ensures Priced(PaidTo(s, a, owed), most)
  {
    hide Accrued, Ceiling;
    WithdrawnAccounts(s, PaidTo(s, a, owed), a, owed);
  }

  lemma WithdrawHandled(s: System, a: Addr, owed: nat)
    requires WithdrawableRewards(PointsOf(s.points, a), s.config, AdjustmentOf(s.adjustments, a)) == Ok(owed)
    requires AdjustmentOf(s.adjustments, a).withdrawnFunds + owed < U128
    requires owed <= s.config.withdrawableTotal <= s.balance
    ensures Handle(s, Withdraw(a)) == Ok(PaidTo(s, a, owed))
  {
    hide WithdrawableRewards;
    PaidOut(s.config, s.adjustments, a, PointsOf(s.points, a), owed);
  }

  lemma PaidOut(c: Config, adjustments: Adjustments, a: Addr, points: nat, owed: nat)
    requires WithdrawableRewards(points, c, AdjustmentOf(adjustments, a)) == Ok(owed)
    requires AdjustmentOf(adjustments, a).withdrawnFunds + owed < U128 && owed <= c.withdrawableTotal
    ensures WithdrawRewards(c, adjustments, a, points) ==
      var adjustment := AdjustmentOf(adjustments, a);
      Ok((c.(withdrawableTotal := c.withdrawableTotal - owed),
          if owed == 0 then adjustments
          else adjustments[a := adjustment.(withdrawnFunds := adjustment.withdrawnFunds + owed)],
          owed))
  {
    hide WithdrawableRewards;
  }

  lemma WithdrawnFits(s: System, most: nat, a: Addr)
    requires Inv(s, most) && a in Abs(s).accounts
    ensures Abs(s).accounts[a].paid + Owed(Abs(s).accounts[a]) < U128
  {
    PriceFits(s, most);
    assert Abs(s).accounts[a].credit == Accrued(s, a);
    assert Accrued(s, a) < I128;
    assert Accrued(s, a) / SCALE <= Accrued(s, a);
  }

  lemma WithdrawnAccounts(s: System, next: System, a: Addr, owed: nat)
    requires a in Abs(s).accounts && next.config.pointsPerPoints == s.config.pointsPerPoints && next.points == s.points
    requires
      var adjustment := AdjustmentOf(s.adjustments, a);
      next.adjustments == if owed == 0 then s.adjustments
        else s.adjustments[a := adjustment.(withdrawnFunds := adjustment.withdrawnFunds + owed)]
    ensures forall b :: Accrued(next, b) == Accrued(s, b)
    ensures
      var account := Abs(s).accounts[a];
      Abs(next).accounts == Abs(s).accounts[a := account.(paid := account.paid + owed)]
  {
    forall b ensures Accrued(next, b) == Accrued(s, b) {
    }
  }

  // ---------------------------------------------------------------- changing points

  lemma CorrectedExact(c: Config, adjustment: Adjustment, held: nat, points: nat, most: nat)
    requires held <= most && points <= most && c.pointsPerPoints < I128 && Ceiling(c.pointsPerPoints, most) < I128
    requires 0 <= c.pointsPerPoints * held + adjustment.pointsCorrection <= Ceiling(c.pointsPerPoints, most)
    ensures
      var correction := adjustment.pointsCorrection - c.pointsPerPoints * (points - held);
      && Corrected(c, adjustment, points - held) == Ok(adjustment.(pointsCorrection := correction))
      && c.pointsPerPoints * points + correction == c.pointsPerPoints * held + adjustment.pointsCorrection
  {
    var price := c.pointsPerPoints;
    ProductBound(price, points - held, most);
    ProductBound(price, points, most);
    Distribute3(price, points, held);
  }

  lemma CorrectionExact(s: System, most: nat, a: Addr, points: nat)
    requires Inv(s, most) && points <= most
    ensures
      var diff := points - PointsOf(s.points, a);
      var before := AdjustmentOf(s.adjustments, a);
      var correction := before.pointsCorrection - s.config.pointsPerPoints * diff;
      && Corrected(s.config, before, diff) == Ok(before.(pointsCorrection := correction))
      && s.config.pointsPerPoints * points + correction == Accrued(s, a)
  {
    PriceFits(s, most);
    assert 0 <= Accrued(s, a) <= Ceiling(s.config.pointsPerPoints, most);
    CorrectedExact(s.config, AdjustmentOf(s.adjustments, a), PointsOf(s.points, a), points, most);
  }

  lemma Distribute3(price: int, points: int, held: int)
    ensures price * (points - held) == price * points - price * held
  {
  }

  lemma SetPointsRefines(s: System, most: nat, a: Addr, points: nat)
    requires Inv(s, most) && points <= most
    ensures
      var r := Handle(s, SetPoints(a, points));
      && r.Ok?
      && Abs(r.value) == EagerSetPoints(Abs(s), a, points)
      && Priced(r.value, most)
  {
    var next := SetPointsHandled(s, most, a, points);
    hide Handle, Accrued, Ceiling;
    SumUpdate(s.points, a, points);
    CorrectedAccounts(s, next, a, points);
  }

  lemma SetPointsHandled(s: System, most: nat, a: Addr, points: nat) returns (next: System)
    requires Inv(s, most) && points <= most
    ensures Handle(s, SetPoints(a, points)) == Ok(next)
    ensures next == s.(points := s.points[a := points], total := s.total + points - PointsOf(s.points, a),
                       adjustments := next.adjustments)
    ensures a in next.adjustments && next.adjustments == s.adjustments[a := next.adjustments[a]]
    ensures next.adjustments[a].withdrawnFunds == AdjustmentOf(s.adjustments, a).withdrawnFunds
    ensures s.config.pointsPerPoints * points + next.adjustments[a].pointsCorrection == Accrued(s, a)
  {
    hide Corrected, Accrued, Ceiling, Inv, ApplyPointsCorrection, Sum;
    TotalCovers(s, most, a, points);
    CorrectionExact(s, most, a, points);
    SingleCorrection(s.config, s.adjustments, a, points - PointsOf(s.points, a));
    next := Handle(s, SetPoints(a, points)).value;
  }

  lemma TotalCovers(s: System, most: nat, a: Addr, points: nat)
    requires Inv(s, most)
    ensures s.total + points - PointsOf(s.points, a) >= 0
  {
    SumUpdate(s.points, a, points);
    SumNonNegative(s.points[a := points]);
  }

  lemma CorrectedAccounts(s: System, next: System, a: Addr, points: nat)
    requires next.config == s.config && next.points == s.points[a := points]
    requires a in next.adjustments && next.adjustments == s.adjustments[a := next.adjustments[a]]
    requires next.adjustments[a].withdrawnFunds == AdjustmentOf(s.adjustments, a).withdrawnFunds
    requires s.config.pointsPerPoints * points + next.adjustments[a].pointsCorrection == Accrued(s, a)
    ensures forall b :: Accrued(next, b) == Accrued(s, b)
    ensures Abs(next).accounts == EagerSetPoints(Abs(s), a, points).accounts
  {
    forall b ensures Accrued(next, b) == Accrued(s, b) {
    }
    if a !in Abs(s).accounts {
      UnknownAccount(s, a);
    }
  }

  lemma SingleCorrection(c: Config, adjustments: Adjustments, a: Addr, diff: int)
    ensures ApplyPointsCorrection(c, adjustments, [(a, diff)]) ==
      match Corrected(c, AdjustmentOf(adjustments, a), diff)
      case Ok(adjustment) => Ok(adjustments[a := adjustment])
      case Err(e) => Err(e)
  {
    var diffs := [(a, diff)];
    assert diffs[1..] == [];
  }

  // ---------------------------------------------------------------- distributing

  /** The config after handing out `amount` among `total` points, without any lost bit. */
  function HandedOut(c: Config, amount: nat, total: nat): Config
    requires total > 0
  {
    var points := amount * SCALE + c.pointsLeftover;
    Config(c.pointsPerPoints + points / total, points % total, c.distributedTotal + amount,
        c.withdrawableTotal + amount)
  }

  /** Every intermediate value of handing out `amount` fits its width. */
  predicate HandOutFits(c: Config, amount: nat, total: nat) {
    && 0 < total < U64
    && amount * SCALE + c.pointsLeftover < U128
    && c.pointsPerPoints + (amount * SCALE + c.pointsLeftover) / total < U128
    && c.withdrawableTotal <= c.distributedTotal
    && c.distributedTotal + amount < U128
  }

  lemma RewardsExact(c: Config, balance: nat, total: nat)
    requires c.withdrawableTotal < balance && HandOutFits(c, balance - c.withdrawableTotal, total)
    ensures DistributeRewards(c, balance, total) ==
      Ok((HandedOut(c, balance - c.withdrawableTotal, total), balance - c.withdrawableTotal))
  {
    var amount := balance - c.withdrawableTotal;
    assert ShiftLeft(amount) == amount * SCALE;
    var rest := (amount * SCALE + c.pointsLeftover) % total;
    assert AsU64(rest) == rest;
  }

  lemma HandOutWithin(c: Config, amount: nat, total: nat, most: nat)
    requires 0 < total < U64 && 1 <= most && c.withdrawableTotal <= c.distributedTotal
    requires c.pointsPerPoints + c.pointsLeftover <= c.distributedTotal * SCALE
    requires Ceiling((c.distributedTotal + amount) * SCALE, most) < I128
    ensures HandOutFits(c, amount, total)
    ensures
      var next := HandedOut(c, amount, total);
      && next.pointsPerPoints + next.pointsLeftover <= next.distributedTotal * SCALE
      && next.pointsPerPoints >= c.pointsPerPoints
  {
    var points := amount * SCALE + c.pointsLeftover;
    ScaleBound(0, (c.distributedTotal + amount) * SCALE, most);
    SharesAndRest(points, total);
    HandOutSums(c, amount, points / total, points % total);
  }

  lemma HandOutSums(c: Config, amount: nat, share: nat, rest: nat)
    requires c.pointsPerPoints + c.pointsLeftover <= c.distributedTotal * SCALE
    requires share + rest <= amount * SCALE + c.pointsLeftover
    requires (c.distributedTotal + amount) * SCALE < I128
    ensures c.pointsPerPoints + share + rest <= (c.distributedTotal + amount) * SCALE
    ensures amount * SCALE + c.pointsLeftover < U128
    ensures c.pointsPerPoints + share < U128 && c.distributedTotal + amount < U128
  {
  }

  lemma DistributeHandled(s: System, most: nat) returns (next: System)
    requires Inv(s, most) && Fits(EagerDistribute(Abs(s)), most)
    requires s.total > 0 && s.balance > s.config.withdrawableTotal
    ensures next == s.(config := HandedOut(s.config, s.balance - s.config.withdrawableTotal, s.total))
    ensures Handle(s, Action.Distribute) == Ok(next)
    ensures next.config.pointsPerPoints >= s.config.pointsPerPoints
    ensures next.config.pointsPerPoints + next.config.pointsLeftover <= next.config.distributedTotal * SCALE
  {
    hide Ceiling, HandOutFits, HandedOut, DistributeRewards, Accrued, EagerDistribute;
    var amount := s.balance - s.config.withdrawableTotal;
    EagerTotals(Abs(s));
    SumNonNegative(Payments(Abs(s).accounts));
    HandOutWithin(s.config, amount, s.total, most);
    RewardsExact(s.config, s.balance, s.total);
    next := s.(config := HandedOut(s.config, amount, s.total));
  }

  lemma EagerTotals(l: Ledger)
    requires Sum(l.points) > 0 && l.balance > l.pool
    ensures EagerDistribute(l).distributed == l.distributed + (l.balance - l.pool)
    ensures EagerDistribute(l).points == l.points
  {
  }

  lemma DistributeRefines(s: System, most: nat)
    requires Inv(s, most)
    requires Fits(EagerDistribute(Abs(s)), most)
    ensures
      var r := Handle(s, Action.Distribute);
      && (r.Err? <==> s.total == 0)
      && (r.Err? ==> r.error == NoMembersToDistributeTo && EagerDistribute(Abs(s)) == Abs(s))
      && (r.Ok? ==> Abs(r.value) == EagerDistribute(Abs(s)) && Priced(r.value, most))
  {
    if s.total > 0 && s.balance > s.config.withdrawableTotal {
      hide Abs, Accrued, Ceiling, EagerDistribute, Handle, HandedOut, Fits;
      var next := DistributeHandled(s, most);
      DistributedPriced(s, next, most, next.config.pointsPerPoints - s.config.pointsPerPoints);
      DistributedAbs(s, next, most);
    }
  }

  lemma DistributedPriced(s: System, next: System, most: nat, share: nat)
    requires Priced(s, most) && next == s.(config := next.config)
    requires next.config.pointsPerPoints == s.config.pointsPerPoints + share
    requires next.config.pointsPerPoints + next.config.pointsLeftover <= next.config.distributedTotal * SCALE
    ensures Priced(next, most)
  {
    hide Accrued, Ceiling;
    Repriced(s, next, most, share);
  }

  lemma DistributedAbs(s: System, next: System, most: nat)
    requires Priced(s, most) && s.total > 0 && s.balance > s.config.withdrawableTotal
    requires next == s.(config := HandedOut(s.config, s.balance - s.config.withdrawableTotal, s.total))
    ensures Abs(next) == EagerDistribute(Abs(s))
  {
    hide Accrued, Ceiling;
    var share := ((s.balance - s.config.withdrawableTotal) * SCALE + s.config.pointsLeftover) / s.total;
    Repriced(s, next, most, share);
    EagerDistributed(Abs(s), s.total, share);
  }

  lemma EagerDistributed(l: Ledger, total: nat, share: nat)
    requires total == Sum(l.points) && total > 0 && l.balance > l.pool
    requires share == ((l.balance - l.pool) * SCALE + l.leftover) / total
    ensures EagerDistribute(l) ==
      Ledger(l.points, Credit(l, share), ((l.balance - l.pool) * SCALE + l.leftover) % total,
             l.distributed + (l.balance - l.pool), l.pool + (l.balance - l.pool), l.balance)
  {
  }

  lemma Repriced(s: System, next: System, most: nat, share: nat)
    requires Priced(s, most)
    requires next == s.(config := next.config) && next.config.pointsPerPoints == s.config.pointsPerPoints + share
    ensures Abs(next).accounts == Credit(Abs(s), share)
    ensures forall a :: 0 <= Accrued(next, a) <= Ceiling(next.config.pointsPerPoints, most)
  {
    hide Ceiling, Accrued;
    forall a
      ensures Accrued(next, a) == Accrued(s, a) + share * PointsOf(s.points, a)
      ensures 0 <= Accrued(next, a) <= Ceiling(next.config.pointsPerPoints, most)
    {
      RepricedAccount(s, next, most, share, a);
    }
  }

  lemma RepricedAccount(s: System, next: System, most: nat, share: nat, a: Addr)
    requires PointsOf(s.points, a) <= most && 0 <= Accrued(s, a) <= Ceiling(s.config.pointsPerPoints, most)
    requires next == s.(config := next.config) && next.config.pointsPerPoints == s.config.pointsPerPoints + share
    ensures Accrued(next, a) == Accrued(s, a) + share * PointsOf(s.points, a)
    ensures 0 <= Accrued(next, a) <= Ceiling(next.config.pointsPerPoints, most)
  {
    var price, points := s.config.pointsPerPoints, PointsOf(s.points, a);
    assert (price + share) * points == price * points + share * points;
    assert (price + share) * most == price * most + share * most;
    ProductBound(share, points, most);
  }

  // ---------------------------------------------------------------- refinement over runs

  lemma StepRefines(s: System, most: nat, action: Action)
    requires Inv(s, most) && (action.SetPoints? ==> action.points <= most)
    requires Fits(EagerStep(Abs(s), action), most)
    ensures Handle(s, action) != Err(Overflow)
    ensures Abs(Step(s, action)) == EagerStep(Abs(s), action)
    ensures Inv(Step(s, action), most)
  {
    StepConserves(Abs(s), action);
    match action
    case Fund(amount) =>
      var next := Handle(s, action).value;
      assert forall a :: Accrued(next, a) == Accrued(s, a);
      assert Abs(next).accounts == Abs(s).accounts;
    case Distribute => DistributeRefines(s, most);
    case Withdraw(a) => WithdrawRefines(s, most, a);
    case SetPoints(a, points) => SetPointsRefines(s, most, a, points);
  }

  /** Every run within the bounds is, step by step, the run of the eager ledger: no cast loses
      bits, no operation traps, and everyone is credited and paid as the ledger says. */
  lemma {:induction false} RunRefines(s: System, most: nat, actions: seq<Action>)
    requires Inv(s, most) && InBounds(Abs(s), actions, most)
    ensures Abs(Run(s, actions)) == EagerRun(Abs(s), actions)
    ensures Inv(Run(s, actions), most)
    decreases |actions|
  {
    if actions == [] {
    } else {
      StepRefines(s, most, actions[0]);
      RunRefines(Step(s, actions[0]), most, actions[1..]);
    }
  }

  /** The points, and their sum, stay in range along the eager run. */
  ghost predicate PointsInRange(l: Ledger, actions: seq<Action>, most: nat)
    decreases |actions|
  {
    && Sum(l.points) < U64
    && (actions != [] ==>
          && (actions[0].SetPoints? ==> actions[0].points <= most)
          && PointsInRange(EagerStep(l, actions[0]), actions[1..], most))
  }

  lemma {:induction false} DistributedGrows(l: Ledger, actions: seq<Action>)
    requires Conserved(l)
    ensures l.distributed <= EagerRun(l, actions).distributed
    decreases |actions|
  {
    if actions == [] {
    } else {
      StepConserves(l, actions[0]);
      DistributedGrows(EagerStep(l, actions[0]), actions[1..]);
    }
  }

  /** It is enough that the widths suffice for what was distributed in the end. */
  lemma {:induction false} BoundAtTheEnd(l: Ledger, actions: seq<Action>, most: nat)
    requires Conserved(l) && PointsInRange(l, actions, most)
    requires Ceiling(EagerRun(l, actions).distributed * SCALE, most) < I128
    ensures InBounds(l, actions, most)
    decreases |actions|
  {
    DistributedGrows(l, actions);
    MulMonotone(l.distributed * SCALE, EagerRun(l, actions).distributed * SCALE, most, most);
    if actions == [] {
    } else {
      StepConserves(l, actions[0]);
      BoundAtTheEnd(EagerStep(l, actions[0]), actions[1..], most);
    }
  }

  /** The system right after initialization, with the first holders' points. */
  function Start(points: map<Addr, nat>, total: nat, balance: nat): System {
    System(INITIAL_CONFIG, map[], points, total, balance)
  }

  lemma StartInv(points: map<Addr, nat>, total: nat, balance: nat, most: nat)
    requires total == Sum(points) < U64 && 1 <= most
    requires forall a :: a in points ==> points[a] <= most
    ensures Inv(Start(points, total, balance), most)
  {
    var s := Start(points, total, balance);
    forall a ensures Accrued(s, a) == 0 {
      assert 0 * PointsOf(s.points, a) == 0;
    }
    assert forall a :: PointsOf(s.points, a) <= most;
    StartConserved(s);
    assert 0 * SCALE * most == 0;
  }

  lemma StartConserved(s: System)
    requires s.config == INITIAL_CONFIG && s.adjustments == map[]
    requires forall a :: Accrued(s, a) == 0
    ensures Conserved(Abs(s))
  {
    var zeros: map<Addr, int> := map a | a in s.points :: 0;
    assert Credits(Abs(s).accounts) == zeros;
    assert Payments(Abs(s).accounts) == zeros;
    SumBound(zeros, 0);
    SumNonNegative(zeros);
    assert |zeros| * 0 == 0;
  }

  lemma {:induction false} BoundedActions(l: Ledger, actions: seq<Action>, most: nat)
    requires InBounds(l, actions, most)
    ensures ActionsAtMost(actions, most)
    decreases |actions|
  {
    if actions == [] {
    } else {
      BoundedActions(EagerStep(l, actions[0]), actions[1..], most);
      assert forall i :: 0 < i < |actions| ==> actions[i] == actions[1..][i - 1];
    }
  }

  /** In every reachable state of a bounded run: tokens are conserved exactly, everybody could
      withdraw at once, the leftover is below the total of the last distribution, and what nobody can
      draw does not grow with the rounds: with points of 0 and 1 it is at most one token for each
      account there ever was. */
  lemma ReachableSolvent(points: map<Addr, nat>, total: nat, balance: nat, most: nat, actions: seq<Action>)
    requires total == Sum(points) < U64 && 1 <= most
    requires forall a :: a in points ==> points[a] <= most
    requires InBounds(Abs(Start(points, total, balance)), actions, most)
    ensures
      var start := Start(points, total, balance);
      var s := Run(start, actions);
      var l := Abs(s);
      var leftover := s.config.pointsLeftover;
      var dust := s.config.withdrawableTotal - Sum(Debts(l.accounts));
      && Sum(Credits(l.accounts)) + leftover == s.config.distributedTotal * SCALE
      && Sum(Payments(l.accounts)) == s.config.distributedTotal - s.config.withdrawableTotal
      && Sum(Debts(l.accounts)) <= s.config.withdrawableTotal <= s.balance
      && (leftover == 0 || leftover < LastTotal(Abs(start), actions, 0))
      && dust * SCALE <= |l.accounts| * (most + SCALE - 1)
      && (most == 1 ==> dust <= |l.accounts|)
  {
    hide Inv, Abs, InBounds, EagerRun, LastTotal, Debts, Credits, Payments, Sum, Run;
    var start := Start(points, total, balance);
    StartInv(points, total, balance, most);
    RunRefines(start, most, actions);
    SolventSystem(Run(start, actions), most);
    LeftoverOfRun(points, total, balance, most, actions);
    RunFields(Run(start, actions));
    var l := Abs(Run(start, actions));
    DustBound(|l.accounts|, most, Run(start, actions).config.pointsLeftover,
              Run(start, actions).config.withdrawableTotal - Sum(Debts(l.accounts)));
  }

  lemma SolventSystem(s: System, most: nat)
    requires Inv(s, most)
    ensures
      var l := Abs(s);
      && Sum(Credits(l.accounts)) + s.config.pointsLeftover == s.config.distributedTotal * SCALE
      && Sum(Payments(l.accounts)) == s.config.distributedTotal - s.config.withdrawableTotal
      && Sum(Debts(l.accounts)) <= s.config.withdrawableTotal <= s.balance
      && (s.config.withdrawableTotal - Sum(Debts(l.accounts))) * SCALE
           <= s.config.pointsLeftover + |l.accounts| * (SCALE - 1)
  {
    hide Debts, Credits, Payments, Ceiling, Priced, Fits, Sum;
    SolventUpToDust(Abs(s));
  }

  lemma LeftoverOfRun(points: map<Addr, nat>, total: nat, balance: nat, most: nat, actions: seq<Action>)
    requires InBounds(Abs(Start(points, total, balance)), actions, most)
    requires forall a :: a in points ==> points[a] <= most
    ensures
      var l := Abs(Start(points, total, balance));
      var end := EagerRun(l, actions);
      && (end.leftover == 0 || end.leftover < LastTotal(l, actions, 0))
      && end.leftover <= |end.accounts| * most
  {
    hide Abs, InBounds, EagerRun, LastTotal;
    var start := Start(points, total, balance);
    StartAccounts(start, most);
    LeftoverBelowLastTotal(Abs(start), actions, 0);
    BoundedActions(Abs(start), actions, most);
    LastTotalBound(Abs(start), actions, 0, most);
  }

  lemma RunFields(s: System)
    ensures Abs(s).leftover == s.config.pointsLeftover && Abs(s).balance == s.balance
    ensures Abs(s).distributed == s.config.distributedTotal && Abs(s).pool == s.config.withdrawableTotal
  {
  }

  lemma StartAccounts(s: System, most: nat)
    requires s.config == INITIAL_CONFIG && forall a :: a in s.points ==> s.points[a] <= most
    ensures Abs(s).points.Keys <= Abs(s).accounts.Keys && PointsAtMost(Abs(s).points, most) && Abs(s).leftover == 0
  {
  }

  lemma DustBound(n: nat, most: nat, leftover: nat, dust: int)
    requires leftover <= n * most && dust * SCALE <= leftover + n * (SCALE - 1)
    ensures dust * SCALE <= n * (most + SCALE - 1)
    ensures most == 1 ==> dust <= n
  {
    assert n * (most + (SCALE - 1)) == n * most + n * (SCALE - 1);
    if most == 1 {
      assert dust * SCALE <= n * SCALE;
    }
  }

  /** The bounds do not depend on withdrawals either. */
  lemma {:induction false} BoundsWithoutWithdrawals(l: Ledger, actions: seq<Action>, most: nat)
    requires Conserved(l) && InBounds(l, actions, most)
    ensures InBounds(Unpaid(l), WithoutWithdrawals(actions), most)
    decreases |actions|
  {
    if actions == [] {
    } else {
      StepConserves(l, actions[0]);
      UnpaidStep(l, actions[0]);
      BoundsWithoutWithdrawals(EagerStep(l, actions[0]), actions[1..], most);
      if actions[0].Withdraw? {
        assert WithoutWithdrawals(actions) == WithoutWithdrawals(actions[1..]);
      } else {
        assert WithoutWithdrawals(actions)[1..] == WithoutWithdrawals(actions[1..]);
        assert WithoutWithdrawals(actions)[0] == actions[0];
      }
    }
  }

  /** What the account could withdraw right now. */
  function Withdrawable(s: System, a: Addr): Result<nat, Error> {
    WithdrawableRewards(PointsOf(s.points, a), s.config, AdjustmentOf(s.adjustments, a))
  }

  /** What an account has drawn plus what it may draw does not depend on when or how often
      anybody withdrew: it is what the run without any withdrawal gives. */
  lemma EntitlementIgnoresWithdrawals(points: map<Addr, nat>, total: nat, balance: nat, most: nat,
                                      actions: seq<Action>, a: Addr)
    requires total == Sum(points) < U64 && 1 <= most
    requires forall b :: b in points ==> points[b] <= most
    requires InBounds(Abs(Start(points, total, balance)), actions, most)
    ensures
      var start := Start(points, total, balance);
      var s, t := Run(start, actions), Run(start, WithoutWithdrawals(actions));
      && Withdrawable(s, a).Ok? && Withdrawable(t, a).Ok?
      && AdjustmentOf(s.adjustments, a).withdrawnFunds + Withdrawable(s, a).value == Withdrawable(t, a).value
  {
    var start := Start(points, total, balance);
    StartInv(points, total, balance, most);
    assert Unpaid(Abs(start)) == Abs(start);
    BoundsWithoutWithdrawals(Abs(start), actions, most);
    RunRefines(start, most, actions);
    RunRefines(start, most, WithoutWithdrawals(actions));
    WithdrawalsDoNotMatter(Abs(start), actions);
    SameEntitlement(Run(start, actions), Run(start, WithoutWithdrawals(actions)), most, a);
  }

  lemma SameEntitlement(s: System, t: System, most: nat, a: Addr)
    requires Inv(s, most) && Inv(t, most) && Abs(t) == Unpaid(Abs(s))
    ensures Withdrawable(s, a).Ok? && Withdrawable(t, a).Ok?
    ensures AdjustmentOf(s.adjustments, a).withdrawnFunds + Withdrawable(s, a).value == Withdrawable(t, a).value
  {
    SameAccrual(s, t, a);
    WithdrawableExact(s, most, a);
    WithdrawableExact(t, most, a);
  }

  lemma SameAccrual(s: System, t: System, a: Addr)
    requires Abs(t) == Unpaid(Abs(s))
    ensures Accrued(s, a) == Accrued(t, a)
    ensures AdjustmentOf(t.adjustments, a).withdrawnFunds == 0
  {
    assert Abs(t).accounts.Keys == Abs(s).accounts.Keys;
    if a in Abs(t).accounts {
      assert Abs(t).accounts[a] == Unpaid(Abs(s)).accounts[a];
      assert Abs(s).accounts[a].credit == Accrued(s, a);
    } else {
      UnknownAccount(s, a);
      UnknownAccount(t, a);
    }
  }

  // ---------------------------------------------------------------- the edges of the contract

  /** One list of corrections is the same as one call for each of its entries. */
  lemma {:induction false} CorrectionsCompose(c: Config, adjustments: Adjustments, one: seq<(Addr, int)>,
                                              two: seq<(Addr, int)>)
    ensures ApplyPointsCorrection(c, adjustments, one + two) ==
      match ApplyPointsCorrection(c, adjustments, one)
      case Ok(middle) => ApplyPointsCorrection(c, middle, two)
      case Err(e) => Err(e)
    decreases |one|
  {
    if one == [] {
      assert one + two == two;
    } else {
      assert (one + two)[1..] == one[1..] + two;
      var (a, diff) := one[0];
      var corrected := Corrected(c, AdjustmentOf(adjustments, a), diff);
      if corrected.Ok? {
        CorrectionsCompose(c, adjustments[a := corrected.value], one[1..], two);
      }
    }
  }
}
