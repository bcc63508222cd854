/**
 The payments contract described a second time: what each message leaves, with the clock and the roundings
 written out.
 */
module PaymentsReference {
  import opened Base
  import opened Sums
  import opened Voting
  import opened TcPayments

  /** The amount is the largest whole number that is not above the product of the parts. */
  predicate RoundsDown(x: nat, amount: nat, fraction: nat) {
    x * 1_000_000_000_000_000_000 <= amount * fraction < x * 1_000_000_000_000_000_000 + 1_000_000_000_000_000_000
  }

  /** A group's share: the ratio of its members is rounded down to eighteen places, and then the amount. */
  ghost predicate IsShare(funds: nat, members: nat, all: nat, share: nat) {
    if all == 0 then share == 0
    else
      exists ratio: nat ::
        && ratio * all <= members * 1_000_000_000_000_000_000 < ratio * all + all
        && RoundsDown(share, funds, ratio)
  }

  predicate SoleCoin(funds: seq<Coin>, denom: string) {
    funds == [] || (|funds| == 1 && funds[0].denom == denom)
  }

  /** Everything goes on if what was held before pays all members, and otherwise the part not to be kept. */
  predicate RewardsForwarded(s: Storage, funds: seq<Coin>, members: nat, next: Storage) {
    && SoleCoin(funds, s.config.denom)
    && var received := if funds == [] then 0 else funds[0].amount;
       if received == 0 then next == s
       else
         var forwarded := s.balance + received - next.balance;
         && 0 <= forwarded
         && (if members * s.config.paymentAmount <= s.balance then forwarded == received
             else RoundsDown(forwarded, received, 1_000_000_000_000_000_000 - s.config.fundsRatio))
         && next == s.(balance := next.balance,
                       ledger := s.ledger.(received := s.ledger.received + received,
                                           forwarded := s.ledger.forwarded + forwarded))
  }

  function Now(block: Block): nat {
    block.time / 1_000_000_000
  }

  function DaysBetween(period: Period): nat {
    match period
    case Daily => 1
    case Monthly => 28
    case Yearly => 365
  }

  /** A payment is due in the first hour after midnight, on the first day of its period, and if the last one
      recorded is not less than the period, short of an hour, ago. */
  ghost predicate Due(s: Storage, block: Block, firstDay: bool) {
    && Now(block) % 86_400 < 3_600 && (s.config.period.Daily? || firstDay)
    && forall t :: t in s.payments ==> t + DaysBetween(s.config.period) * 86_400 <= Now(block) + 3_600
  }

  /** What is held is paid to the two groups; a payment of nothing is recorded. */
  ghost predicate BlockEnded(s: Storage, block: Block, oversight: nat, arbiters: nat, firstDay: bool, next: Storage) {
    if !Due(s, block, firstDay) then next == s
    else if s.balance == 0 then
      next == s.(payments := s.payments[Now(block) := Payment(Now(block), block.height, 0, 0)])
    else
      && next.ledger.toOversight >= s.ledger.toOversight && next.ledger.toArbiters >= s.ledger.toArbiters
      && var first, second :=
           next.ledger.toOversight - s.ledger.toOversight, next.ledger.toArbiters - s.ledger.toArbiters;
         && IsShare(s.balance, oversight, oversight + arbiters, first)
         && IsShare(s.balance, arbiters, oversight + arbiters, second)
         && first + second <= s.balance
         && next == s.(balance := s.balance - first - second,
                       ledger := s.ledger.(toOversight := next.ledger.toOversight,
                                           toArbiters := next.ledger.toArbiters))
  }

  ghost predicate Transition(s: Storage, call: Call, next: Storage) {
    match call.message
    case Donate(amount) =>
      next == s.(balance := s.balance + amount, ledger := s.ledger.(received := s.ledger.received + amount))
    case UpdateAdmin(admin) => s.admin == Some(call.sender) && next == s.(admin := admin)
    case UpdateConfig(amount) =>
      && s.admin == Some(call.sender)
      && next == s.(config := s.config.(paymentAmount :=
                      if amount.Some? then amount.value else s.config.paymentAmount))
    case DistributeRewards(funds, oversight, arbiters) => RewardsForwarded(s, funds, oversight + arbiters, next)
    case EndBlock(oversight, arbiters, firstDay) => BlockEnded(s, call.block, oversight, arbiters, firstDay, next)
  }

  // ---------------------------------------------------------------- the contract does what is described

  lemma PartIs(x: nat, amount: nat, fraction: Fraction)
    ensures RoundsDown(x, amount, fraction) <==> x == Part(amount, fraction)
  {
    PartBounds(amount, fraction);
    var part := Part(amount, fraction);
    if RoundsDown(x, amount, fraction) {
      assert x * ONE < part * ONE + ONE && part * ONE < x * ONE + ONE;
    }
  }

  lemma RatioIs(ratio: nat, members: nat, all: nat)
    requires all > 0
    ensures ratio * all <= members * ONE < ratio * all + all <==> ratio == Ratio(members, all)
  {
    RatioBounds(members, all);
    var exact := Ratio(members, all);
    if ratio * all <= members * ONE < ratio * all + all {
      assert ratio * all + all == all * (ratio + 1) && exact * all + all == all * (exact + 1);
      CancelStrictly(all, exact, ratio + 1);
      CancelStrictly(all, ratio, exact + 1);
    }
  }

  lemma ShareIs(funds: nat, members: nat, all: nat, share: nat)
    ensures IsShare(funds, members, all, share) <==> share == Share(funds, members, all)
  {
    hide Part, Ratio, RoundsDown;
    if all > 0 {
      var exact := Ratio(members, all);
      RatioIs(exact, members, all);
      PartIs(share, funds, exact);
      forall ratio: nat ensures ratio * all <= members * ONE < ratio * all + all <==> ratio == exact {
        RatioIs(ratio, members, all);
      }
    }
  }

  lemma ForwardConforms(s: Storage, call: Call, next: Storage)
    requires call.message.DistributeRewards?
    ensures Handle(s, call) == Ok(next) <==> Transition(s, call, next)
  {
    hide Part, RoundsDown;
    NeverShort(s, call);
    var funds := call.message.funds;
    var received := if funds == [] then 0 else funds[0].amount;
    PartIs(Part(received, ONE - s.config.fundsRatio), received, ONE - s.config.fundsRatio);
    if 0 <= s.balance + received - next.balance {
      PartIs(s.balance + received - next.balance, received, ONE - s.config.fundsRatio);
    }
  }

  /** The hour by the clock, and the payments recorded. */
  lemma DueIff(s: Storage, block: Block, firstDay: bool)
    ensures Due(s, block, firstDay) <==> PaymentHour(s.config.period, block, firstDay) && !AlreadyPaid(s, block)
  {
    hide LastPayment;
    LastPaymentIsLatest(s.payments);
    FirstHour(Now(block));
    assert DaysBetween(s.config.period) * 86_400 == s.config.period.Seconds();
  }

  lemma FirstHour(now: nat)
    ensures now / 3600 % 24 == 0 <==> now % 86_400 < 3_600
  {
    var hours, rest := now / 3600, now % 3600;
    RestOfDay(now, hours / 24, hours % 24 * 3600 + rest);
  }

  lemma RestOfDay(now: nat, days: nat, rest: nat)
    requires now == days * 86_400 + rest && rest < 86_400
    ensures now % 86_400 == rest
  {
  }

  lemma EndBlockConforms(s: Storage, call: Call, next: Storage)
    requires call.message.EndBlock?
    ensures Handle(s, call) == Ok(next) <==> Transition(s, call, next)
  {
    hide Share, IsShare, Due, PaymentHour, AlreadyPaid, LastPayment;
    var oversight, arbiters := call.message.oversight, call.message.arbiters;
    NeverShort(s, call);
    DueIff(s, call.block, call.message.firstDay);
    ShareIs(s.balance, oversight, oversight + arbiters, Share(s.balance, oversight, oversight + arbiters));
    ShareIs(s.balance, arbiters, oversight + arbiters, Share(s.balance, arbiters, oversight + arbiters));
    if next.ledger.toOversight >= s.ledger.toOversight && next.ledger.toArbiters >= s.ledger.toArbiters {
      ShareIs(s.balance, oversight, oversight + arbiters, next.ledger.toOversight - s.ledger.toOversight);
      ShareIs(s.balance, arbiters, oversight + arbiters, next.ledger.toArbiters - s.ledger.toArbiters);
    }
  }

  /** In every state, a message is accepted and leaves `next` if and only if the reference has it so. */
  lemma HandleConforms(s: Storage, call: Call, next: Storage)
    ensures Handle(s, call) == Ok(next) <==> Transition(s, call, next)
  {
    match call.message
    case Donate(_) =>
    case UpdateAdmin(_) =>
    case UpdateConfig(_) =>
    case DistributeRewards(_, _, _) => ForwardConforms(s, call, next);
    case EndBlock(_, _, _) => EndBlockConforms(s, call, next);
  }

  /** A block just after midnight of a first day pays out what is held, whatever else that day brings. */
  lemma MidnightPays(s: Storage, block: Block, oversight: nat, arbiters: nat)
    requires Now(block) % 86_400 < 3_600 && s.payments == map[] && s.balance > 0 && oversight + arbiters > 0
    ensures
      var r := Handle(s, Call(block, 0, EndBlock(oversight, arbiters, true)));
      && r.Ok? && r.value.balance * ONE < s.balance + 2 * ONE
      && r.value.ledger.Out() - s.ledger.Out() == s.balance - r.value.balance
  {
    hide Share, LastPayment;
    var call := Call(block, 0, EndBlock(oversight, arbiters, true));
    DueIff(s, block, true);
    DuePayment(s, call);
  }
}
