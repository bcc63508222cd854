/**
 The payments contract: it keeps a part of the rewards passing through it, forwards the rest to the
 holders of engagement points, and once a period splits what it kept between the oversight
 community and the arbiter pool.

 The numbers of members come with the call, and so does whether the block's day is the first of the
 month or year, as the period needs it. `Ledger` counts what came in and where it went.
 */
module TcPayments {
  import opened Base
  import opened Sums
  import opened Voting

  datatype Period = Daily | Monthly | Yearly {
    function Seconds(): nat {
      match this
      case Daily => 86_400
      case Monthly => 86_400 * 28
      case Yearly => 86_400 * 365
    }
  }

  datatype RawConfig = Config(denom: string, paymentAmount: nat, period: Period, fundsRatio: Fraction)

  /** Instantiation accepts only a ratio of at most one. */
  type Config = c: RawConfig | c.fundsRatio <= ONE witness RawConfig.Config("", 0, Daily, 0)

  datatype Payment = Payment(time: nat, height: nat, members: nat, amount: nat)

  datatype Coin = Coin(denom: string, amount: nat)

  datatype Ledger = Ledger(received: nat, forwarded: nat, toOversight: nat, toArbiters: nat) {
    function Out(): nat {
      forwarded + toOversight + toArbiters
    }
  }

  datatype Error = WrongFundsRatio | NotAdmin | MissingDenom | ExtraDenoms | PaymentExists | InsufficientBalance

  datatype Storage = Storage(
    config: Config,
    admin: Option<Addr>,
    payments: map<nat, Payment>,
    balance: nat,
    ledger: Ledger)

  datatype Message =
    | Donate(amount: nat)
    | UpdateAdmin(admin: Option<Addr>)
    | UpdateConfig(paymentAmount: Option<nat>)
    | DistributeRewards(funds: seq<Coin>, oversight: nat, arbiters: nat)
    | EndBlock(oversight: nat, arbiters: nat, firstDay: bool)

  type Call = Transaction<Message>

  // ---------------------------------------------------------------- operations

  function Instantiate(config: RawConfig, admin: Option<Addr>): Result<Storage, Error> {
    if config.fundsRatio > ONE then Err(WrongFundsRatio)
    else Ok(Storage(config, admin, map[], 0, Ledger(0, 0, 0, 0)))
  }

  /** A fraction of an amount, rounded down. */
  function Part(amount: nat, fraction: Fraction): nat {
    amount * fraction / ONE
  }

  /** A ratio as a fixed-point number, rounded down. */
  function Ratio(part: nat, whole: nat): Fraction
    requires whole > 0
  {
    part * ONE / whole
  }

  function ValidateFunds(funds: seq<Coin>, denom: string): Result<nat, Error> {
    if funds == [] then Ok(0)
    else if |funds| > 1 then Err(ExtraDenoms)
    else if funds[0].denom == denom then Ok(funds[0].amount)
    else Err(MissingDenom)
  }

  /** How much of the received funds goes on, when they are already part of the balance. */
  function ToForward(config: Config, balance: nat, received: nat, members: nat): nat {
    if balance >= members * config.paymentAmount + received then received
    else Part(received, ONE - config.fundsRatio)
  }

  function Credit(s: Storage, amount: nat): Storage {
    s.(balance := s.balance + amount, ledger := s.ledger.(received := s.ledger.received + amount))
  }

  function Forward(s: Storage, amount: nat): Result<Storage, Error> {
    if s.balance < amount then Err(InsufficientBalance)
    else Ok(s.(balance := s.balance - amount, ledger := s.ledger.(forwarded := s.ledger.forwarded + amount)))
  }

  function DistributeFunds(s: Storage, funds: seq<Coin>, members: nat): Result<Storage, Error> {
    match ValidateFunds(funds, s.config.denom)
    case Err(e) => Err(e)
    case Ok(received) =>
      if received == 0 then Ok(s)
      else
        var credited := Credit(s, received);
        Forward(credited, ToForward(s.config, credited.balance, received, members))
  }

  function SetPaymentAmount(s: Storage, sender: Addr, amount: Option<nat>): Result<Storage, Error> {
    if s.admin != Some(sender) then Err(NotAdmin)
    else if amount.None? then Ok(s)
    else Ok(s.(config := s.config.(paymentAmount := amount.value)))
  }

  function SetAdmin(s: Storage, sender: Addr, admin: Option<Addr>): Result<Storage, Error> {
    if s.admin != Some(sender) then Err(NotAdmin) else Ok(s.(admin := admin))
  }

  /** The time of the most recent recorded payment. */
  function LastPayment(payments: map<nat, Payment>): Option<nat> {
    var times := Ascending(payments.Keys);
    if times == [] then None else Some(times[|times| - 1])
  }

  predicate AlreadyPaid(s: Storage, block: Block) {
    match LastPayment(s.payments)
    case None => false
    case Some(last) => block.Seconds() < last + s.config.period.Seconds() - 3600
  }

  function CreatePayment(s: Storage, block: Block, members: nat, amount: nat): Result<Storage, Error> {
    var time := block.Seconds();
    if time in s.payments then Err(PaymentExists)
    else Ok(s.(payments := s.payments[time := Payment(time, block.height, members, amount)]))
  }

  /** A group's share of the funds: the ratio is rounded first, and then the amount. */
  function Share(funds: nat, members: nat, all: nat): nat {
    if all == 0 then 0 else Part(funds, Ratio(members, all))
  }

  function PayGroups(s: Storage, oversight: nat, arbiters: nat): Result<Storage, Error> {
    if s.balance < oversight + arbiters then Err(InsufficientBalance)
    else Ok(s.(balance := s.balance - oversight - arbiters,
               ledger := s.ledger.(toOversight := s.ledger.toOversight + oversight,
                                   toArbiters := s.ledger.toArbiters + arbiters)))
  }

  /** The first hour of a day that starts a period. */
  predicate PaymentHour(period: Period, block: Block, firstDay: bool) {
    block.Seconds() / 3600 % 24 == 0 && (period.Daily? || firstDay)
  }

  function HandleEndBlock(s: Storage, block: Block, oversight: nat, arbiters: nat,
                          firstDay: bool): Result<Storage, Error> {
    if !PaymentHour(s.config.period, block, firstDay) || AlreadyPaid(s, block) then Ok(s)
    else if s.balance == 0 then CreatePayment(s, block, 0, 0)
    else
      var all := oversight + arbiters;
      PayGroups(s, Share(s.balance, oversight, all), Share(s.balance, arbiters, all))
  }

  function Handle(s: Storage, call: Call): Result<Storage, Error> {
    match call.message
    case Donate(amount) => Ok(Credit(s, amount))
    case UpdateAdmin(admin) => SetAdmin(s, call.sender, admin)
    case UpdateConfig(paymentAmount) => SetPaymentAmount(s, call.sender, paymentAmount)
    case DistributeRewards(funds, oversight, arbiters) => DistributeFunds(s, funds, oversight + arbiters)
    case EndBlock(oversight, arbiters, firstDay) => HandleEndBlock(s, call.block, oversight, arbiters, firstDay)
  }

  function Step(s: Storage, call: Call): Storage {
    match Handle(s, call)
    case Ok(next) => next
    case Err(_) => s
  }

  function Run(s: Storage, calls: seq<Call>): Storage
    decreases |calls|
  {
    if calls == [] then s else Run(Step(s, calls[0]), calls[1..])
  }

  // ---------------------------------------------------------------- rounding

  /** Cutting off a fraction: the part is the largest number not above the exact value. */
  lemma PartBounds(amount: nat, fraction: Fraction)
    ensures Part(amount, fraction) * ONE <= amount * fraction < Part(amount, fraction) * ONE + ONE
  {
  }

  lemma RatioBounds(part: nat, whole: nat)
    requires whole > 0
    ensures Ratio(part, whole) * whole <= part * ONE < Ratio(part, whole) * whole + whole
  {
    var x := part * ONE;
    assert x == x / whole * whole + x % whole;
  }

  /** Two complementary ratios miss one by at most one unit in the last place. */
  lemma ComplementaryRatios(part: nat, other: nat)
    requires part + other > 0
    ensures ONE - 1 <= Ratio(part, part + other) + Ratio(other, part + other) <= ONE
  {
    hide Ratio;
    var whole := part + other;
    var r, q := Ratio(part, whole), Ratio(other, whole);
    RatioBounds(part, whole);
    RatioBounds(other, whole);
    Distribute(whole, r, q);
    assert whole * ONE == part * ONE + other * ONE;
    assert whole * (r + q) <= whole * ONE;
    assert whole * ONE < whole * (r + q + 2);
    CancelFactor(whole, r + q, ONE);
    CancelStrictly(whole, ONE, r + q + 2);
  }

  lemma Scaled(c: nat, x: nat, y: nat)
    requires c > 0 && x < y
    ensures c * x < c * y
  {
    assert c * (y - x) > 0;
  }

  lemma CancelFactor(c: nat, x: nat, y: nat)
    requires c > 0 && c * x <= c * y
    ensures x <= y
  {
    if y < x {
      Scaled(c, y, x);
    }
  }

  lemma CancelStrictly(c: nat, x: nat, y: nat)
    requires c * x < c * y
    ensures x < y
  {
    if y < x {
      MulMonotone(c, c, y, x);
    }
  }

  /** What the two groups get is covered by the funds, and what stays behind after both roundings
      is less than two units and one part in 10^18 of the funds. */
  lemma SharesCovered(funds: nat, oversight: nat, arbiters: nat)
    ensures
      var all := oversight + arbiters;
      var residue := funds - Share(funds, oversight, all) - Share(funds, arbiters, all);
      && 0 <= residue
      && (all > 0 ==> residue * ONE < funds + 2 * ONE)
  {
    hide Part, Ratio;
    var all := oversight + arbiters;
    if all > 0 {
      var r, q := Ratio(oversight, all), Ratio(arbiters, all);
      ComplementaryRatios(oversight, arbiters);
      PartBounds(funds, r);
      PartBounds(funds, q);
      Distribute(funds, r, q);
      MulMonotone(funds, funds, r + q, ONE);
      MulMonotone(funds, funds, ONE - 1, r + q);
      assert funds * (ONE - 1) == funds * ONE - funds;
    }
  }

  /** The share is no more than the members' exact proportion of the funds, and less by less than
      one unit and one part in 10^18 of the funds. */
  ghost predicate FairTo(funds: nat, members: nat, all: nat, share: int) {
    if all == 0 || funds == 0 then share == 0
    else
      && share * all <= funds * members
      && funds * members * ONE < share * all * ONE + funds * all + all * ONE
  }

  /** Both roundings together are fair to a group. */
  lemma ShareIsFair(funds: nat, members: nat, all: nat)
    requires 0 < all && 0 < funds
    ensures FairTo(funds, members, all, Share(funds, members, all))
  {
    hide Part, Ratio;
    var r := Ratio(members, all);
    var share := Part(funds, r);
    RatioBounds(members, all);
    PartBounds(funds, r);
    // share * ONE <= funds * r, and r * all <= members * ONE
    MulMonotone(share * ONE, funds * r, all, all);
    MulMonotone(funds, funds, r * all, members * ONE);
    Reorder(share, all, funds, r, members);
    CancelFactor(ONE, share * all, funds * members);
    // funds * r < share * ONE + ONE, and members * ONE < r * all + all
    MulMonotone(funds, funds, members * ONE + 1, r * all + all);
    MulMonotone(funds * r + 1, share * ONE + ONE, all, all);
    UpperBound(share, all, funds, r, members);
  }

  lemma Reorder(share: nat, all: nat, funds: nat, r: nat, members: nat)
    ensures share * ONE * all == ONE * (share * all)
    ensures funds * r * all == funds * (r * all)
    ensures funds * (members * ONE) == ONE * (funds * members)
  {
  }

  lemma UpperBound(share: nat, all: nat, funds: nat, r: nat, members: nat)
    requires 0 < all
    requires funds * (members * ONE + 1) <= funds * (r * all + all)
    requires (funds * r + 1) * all <= (share * ONE + ONE) * all
    ensures funds * members * ONE < share * all * ONE + funds * all + all * ONE
  {
    assert funds * (members * ONE + 1) == funds * members * ONE + funds;
    assert funds * (r * all + all) == funds * r * all + funds * all;
    assert (funds * r + 1) * all == funds * r * all + all;
    assert (share * ONE + ONE) * all == share * all * ONE + all * ONE;
  }

  // ---------------------------------------------------------------- runs

  /** What came in is what went out and what is held. */
  ghost predicate Conserved(s: Storage) {
    s.ledger.received == s.balance + s.ledger.Out()
  }

  lemma LastPaymentIsLatest(payments: map<nat, Payment>)
    ensures LastPayment(payments).None? <==> payments.Keys == {}
    ensures LastPayment(payments).Some? ==> LastPayment(payments).value in payments
    ensures LastPayment(payments).Some? ==> forall t :: t in payments ==> t <= LastPayment(payments).value
  {
    hide Ascending;
    var times := Ascending(payments.Keys);
    if times != [] {
      assert times[|times| - 1] in times;
      forall t | t in payments ensures t <= times[|times| - 1] {
        assert t in times;
      }
    }
  }

  /** No message fails for lack of funds, or because its payment is already recorded. */
  lemma NeverShort(s: Storage, call: Call)
    ensures Handle(s, call).Err? ==> Handle(s, call).error !in {InsufficientBalance, PaymentExists}
  {
    hide Part, Share, LastPayment;
    match call.message
    case Donate(_) =>
    case UpdateAdmin(_) =>
    case UpdateConfig(_) =>
    case DistributeRewards(funds, _, _) =>
      var received := ValidateFunds(funds, s.config.denom);
      if received.Ok? {
        PartAtMostWhole(received.value, ONE - s.config.fundsRatio);
      }
    case EndBlock(_, _, _) =>
      SharesCovered(s.balance, call.message.oversight, call.message.arbiters);
      LastPaymentIsLatest(s.payments);
  }

  lemma PartAtMostWhole(amount: nat, fraction: Fraction)
    requires fraction <= ONE
    ensures Part(amount, fraction) <= amount
  {
    PartBounds(amount, fraction);
    MulMonotone(amount, amount, fraction, ONE);
    CancelFactor(ONE, Part(amount, fraction), amount);
  }

  lemma HandleConserves(s: Storage, call: Call)
    requires Conserved(s)
    ensures Handle(s, call).Ok? ==> Conserved(Handle(s, call).value)
  {
    hide Part, Share, LastPayment;
  }

  /** In every run, the tokens received are those forwarded, paid to either group, or still held. */
  lemma {:induction false} RunConserves(s: Storage, calls: seq<Call>)
    requires Conserved(s)
    ensures Conserved(Run(s, calls))
    decreases |calls|
  {
    if calls == [] {
    } else {
      hide Handle;
      HandleConserves(s, calls[0]);
      RunConserves(Step(s, calls[0]), calls[1..]);
    }
  }

  lemma ReachableConserves(config: RawConfig, admin: Option<Addr>, calls: seq<Call>)
    requires Instantiate(config, admin).Ok?
    ensures
      var end := Run(Instantiate(config, admin).value, calls);
      end.ledger.received == end.ledger.forwarded + end.ledger.toOversight + end.ledger.toArbiters + end.balance
  {
    RunConserves(Instantiate(config, admin).value, calls);
  }

  // ---------------------------------------------------------------- what is kept and what is paid

  /** Either all of the received funds go on, and what is left still pays every member in full; or
      the balance would not have sufficed, and the configured part, rounded up, stays. */
  lemma KeepsWhatIsNeeded(s: Storage, call: Call)
    requires call.message.DistributeRewards?
    requires ValidateFunds(call.message.funds, s.config.denom).Ok?
    ensures
      var received := ValidateFunds(call.message.funds, s.config.denom).value;
      var required := (call.message.oversight + call.message.arbiters) * s.config.paymentAmount;
      var r := Handle(s, call);
      && r.Ok?
      && var kept := r.value.balance - s.balance;
         if received > 0 && s.balance < required
         then s.config.fundsRatio * received <= kept * ONE < s.config.fundsRatio * received + ONE
         else kept == 0 && (received > 0 ==> required <= r.value.balance)
  {
    hide Part;
    NeverShort(s, call);
    var received := ValidateFunds(call.message.funds, s.config.denom).value;
    PartBounds(received, ONE - s.config.fundsRatio);
    assert received * (ONE - s.config.fundsRatio) == received * ONE - s.config.fundsRatio * received;
  }

  /** A payment to be made: its hour has come, and no empty payment stands in its way. */
  predicate PaymentDue(s: Storage, call: Call) {
    && call.message.EndBlock? && PaymentHour(s.config.period, call.block, call.message.firstDay)
    && !AlreadyPaid(s, call.block)
  }

  /** When a payment is due: all but a residue of the funds is paid, unless there is nobody to pay,
      and nothing is recorded; with no funds, the empty payment is recorded instead. */
  lemma DuePayment(s: Storage, call: Call)
    requires PaymentDue(s, call)
    ensures
      var r := Handle(s, call);
      && r.Ok?
      && (s.balance > 0 && call.message.oversight + call.message.arbiters > 0 ==>
          r.value.balance * ONE < s.balance + 2 * ONE)
      && (call.message.oversight + call.message.arbiters == 0 ==> r.value.balance == s.balance)
      && (var all := call.message.oversight + call.message.arbiters;
          && FairTo(s.balance, call.message.oversight, all, r.value.ledger.toOversight - s.ledger.toOversight)
          && FairTo(s.balance, call.message.arbiters, all, r.value.ledger.toArbiters - s.ledger.toArbiters))
      && (s.balance > 0 ==> r.value.payments == s.payments)
      && (s.balance == 0 ==> r.value.payments.Keys == s.payments.Keys + {call.block.Seconds()})
  {
    hide Part, Ratio, LastPayment;
    NeverShort(s, call);
    SharesCovered(s.balance, call.message.oversight, call.message.arbiters);
    var all := call.message.oversight + call.message.arbiters;
    if all > 0 && s.balance > 0 {
      ShareIsFair(s.balance, call.message.oversight, all);
      ShareIsFair(s.balance, call.message.arbiters, all);
    }
  }

  /** A second payment within the period is held back exactly if the first one was empty. */
  lemma RepeatHeldBackIffEmpty(s: Storage, call: Call, later: Block)
    requires PaymentDue(s, call)
    requires call.block.NotAfter(later) && later.Seconds() < call.block.Seconds() + s.config.period.Seconds() - 3600
    ensures Handle(s, call).Ok?
    ensures AlreadyPaid(Handle(s, call).value, later) <==> s.balance == 0
  {
    hide LastPayment, Share, Block.Seconds;
    NeverShort(s, call);
    SecondsMonotone(call.block, later);
    var next := Handle(s, call).value;
    if s.balance == 0 {
      LastPaymentIsLatest(next.payments);
      assert call.block.Seconds() in next.payments;
    } else {
      assert next.payments == s.payments && next.config == s.config;
    }
  }

  /** So two blocks of one hour can see two payments: ten tokens arrive and are paid in the first, ten
      more in the second. */
  lemma PaidTwice(block: Block, later: Block)
    requires block.height < later.height && block.time < later.time
    requires PaymentHour(Monthly, block, true) && block.Seconds() / 3600 == later.Seconds() / 3600
    ensures
      var start := Instantiate(RawConfig.Config("utgd", 0, Monthly, 0), None).value;
      var calls := [Call(block, 0, Donate(10)), Call(block, 0, EndBlock(1, 0, true)),
                    Call(later, 0, Donate(10)), Call(later, 0, EndBlock(1, 0, true))];
      Ordered(block, calls) && Run(start, calls).ledger.toOversight == 20
  {
    hide Run, Step;
    var start := Instantiate(RawConfig.Config("utgd", 0, Monthly, 0), None).value;
    var first, second := Call(block, 0, Donate(10)), Call(later, 0, Donate(10));
    var pay, again := Call(block, 0, EndBlock(1, 0, true)), Call(later, 0, EndBlock(1, 0, true));
    RunFour(start, first, pay, second, again);
    InOrder(first, pay, second, again);
    DonateThenPay(start, block, 10);
    DonateThenPay(Step(Step(start, first), pay), later, 10);
  }

  lemma InOrder(a: Call, b: Call, c: Call, d: Call)
    requires a.block.NotAfter(b.block) && b.block.NotAfter(c.block) && c.block.NotAfter(d.block)
    ensures Ordered(a.block, [a, b, c, d])
  {
    assert [a, b, c, d][1..] == [b, c, d] && [b, c, d][1..] == [c, d] && [c, d][1..] == [d];
    assert Ordered(c.block, [d]);
    assert Ordered(b.block, [c, d]);
    assert Ordered(a.block, [b, c, d]);
  }

  /** With one member in all, and no payment recorded, everything held is paid to his group. */
  lemma DonateThenPay(s: Storage, block: Block, amount: nat)
    requires s.balance == 0 && s.payments == map[] && amount > 0
    requires PaymentHour(s.config.period, block, true)
    ensures
      var next := Step(Step(s, Call(block, 0, Donate(amount))), Call(block, 0, EndBlock(1, 0, true)));
      && next.balance == 0 && next.payments == map[] && next.config == s.config
      && next.ledger.toOversight == s.ledger.toOversight + amount
  {
    hide Share, LastPayment, PaymentHour;
    LastPaymentIsLatest(s.payments);
    SoleMember(amount);
  }

  lemma SoleMember(funds: nat)
    ensures Share(funds, 1, 1) == funds && Share(funds, 0, 1) == 0
  {
  }

  lemma RunFour(s: Storage, a: Call, b: Call, c: Call, d: Call)
    ensures Run(s, [a, b, c, d]) == Step(Step(Step(Step(s, a), b), c), d)
  {
    hide Step;
    assert [a, b, c, d][1..] == [b, c, d] && [b, c, d][1..] == [c, d] && [c, d][1..] == [d] && [d][1..] == [];
    assert Run(s, [a, b, c, d]) == Run(Step(s, a), [b, c, d]);
    assert Run(Step(s, a), [b, c, d]) == Run(Step(Step(s, a), b), [c, d]);
    assert Run(Step(Step(s, a), b), [c, d]) == Run(Step(Step(Step(s, a), b), c), [d]);
  }

  // ---------------------------------------------------------------- the contract

  class PaymentsContract {
    var config: Config
    var admin: Option<Addr>
    var payments: map<nat, Payment>
    var balance: nat
    ghost var ledger: Ledger

    ghost function State(): Storage
      reads this
    {
      Storage(config, admin, payments, balance, ledger)
    }

    constructor (config: Config, admin: Option<Addr>)
      ensures Instantiate(config, admin) == Ok(State())
    {
      this.config, this.admin, payments, balance, ledger := config, admin, map[], 0, Ledger(0, 0, 0, 0);
    }

    method ReceiveFunds(amount: nat)
      modifies `balance, `ledger
      ensures State() == Credit(old(State()), amount)
    {
      balance := balance + amount;
      ledger := ledger.(received := ledger.received + amount);
    }

    method ExecuteDistributeRewards(funds: seq<Coin>, oversight: nat, arbiters: nat) returns (r: Result<(), Error>)
      modifies `balance, `ledger
      ensures Does(r, DistributeFunds(old(State()), funds, oversight + arbiters), State())
    {
      var fundsReceived := ValidateFunds(funds, config.denom);
      if fundsReceived.Err? {
        return Err(fundsReceived.error);
      }
      if fundsReceived.value == 0 {
        return Ok(());
      }
      ReceiveFunds(fundsReceived.value);
      var required := (oversight + arbiters) * config.paymentAmount;
      var toDistribute;
      if balance >= required + fundsReceived.value {
        toDistribute := fundsReceived.value;
      } else {
        toDistribute := Part(fundsReceived.value, ONE - config.fundsRatio);
      }
      if balance < toDistribute {
        return Err(InsufficientBalance);
      }
      balance := balance - toDistribute;
      ledger := ledger.(forwarded := ledger.forwarded + toDistribute);
      return Ok(());
    }

    method ExecuteUpdateConfig(sender: Addr, paymentAmount: Option<nat>) returns (r: Result<(), Error>)
      modifies `config
      ensures Does(r, SetPaymentAmount(old(State()), sender, paymentAmount), State())
    {
      if admin != Some(sender) {
        return Err(NotAdmin);
      }
      if paymentAmount.Some? {
        config := config.(paymentAmount := paymentAmount.value);
      }
      return Ok(());
    }

    method ExecuteUpdateAdmin(sender: Addr, newAdmin: Option<Addr>) returns (r: Result<(), Error>)
      modifies `admin
      ensures Does(r, SetAdmin(old(State()), sender, newAdmin), State())
    {
      if admin != Some(sender) {
        return Err(NotAdmin);
      }
      admin := newAdmin;
      return Ok(());
    }

    method EndOfBlock(block: Block, oversight: nat, arbiters: nat, firstDay: bool)
      returns (r: Result<(), Error>)
      modifies `payments, `balance, `ledger
      ensures Does(r, HandleEndBlock(old(State()), block, oversight, arbiters, firstDay), State())
    {
      hide LastPayment, Part, Ratio;
      if block.Seconds() / 3600 % 24 != 0 {
        return Ok(());
      }
      if !config.period.Daily? && !firstDay {
        return Ok(());
      }
      var lastPayment := LastPayment(payments);
      if lastPayment.Some? {
        if block.Seconds() < lastPayment.value + config.period.Seconds() - 3600 {
          return Ok(());
        }
      }
      var totalFunds := balance;
      var sumOfMembers := arbiters + oversight;
      if totalFunds == 0 {
        if block.Seconds() in payments {
          return Err(PaymentExists);
        }
        payments := payments[block.Seconds() := Payment(block.Seconds(), block.height, 0, 0)];
        return Ok(());
      }
      var toOversight, toArbiters := 0, 0;
      if sumOfMembers != 0 {
        toOversight := Part(totalFunds, Ratio(oversight, sumOfMembers));
        toArbiters := Part(totalFunds, Ratio(arbiters, sumOfMembers));
      }
      if balance < toOversight + toArbiters {
        return Err(InsufficientBalance);
      }
      balance := balance - toOversight - toArbiters;
      ledger := ledger.(toOversight := ledger.toOversight + toOversight, toArbiters := ledger.toArbiters + toArbiters);
      return Ok(());
    }

    /** One transaction: a failing message leaves everything as it was. */
    method Transact(call: Call) returns (r: Result<(), Error>)
      modifies this
      ensures State() == Step(old(State()), call)
      ensures r.Ok? <==> Handle(old(State()), call).Ok?
    {
      hide DistributeFunds, HandleEndBlock;
      var config0, admin0, payments0, balance0 := config, admin, payments, balance;
      ghost var ledger0 := ledger;
      match call.message {
        case Donate(amount) =>
          ReceiveFunds(amount);
          r := Ok(());
        case UpdateAdmin(newAdmin) => r := ExecuteUpdateAdmin(call.sender, newAdmin);
        case UpdateConfig(paymentAmount) => r := ExecuteUpdateConfig(call.sender, paymentAmount);
        case DistributeRewards(funds, oversight, arbiters) =>
          r := ExecuteDistributeRewards(funds, oversight, arbiters);
        case EndBlock(oversight, arbiters, firstDay) =>
          r := EndOfBlock(call.block, oversight, arbiters, firstDay);
      }
      if r.Err? {
        config, admin, payments, balance := config0, admin0, payments0, balance0;
        ledger := ledger0;
      }
    }
  }
}
