/**
 Lazy reward distribution by points per share, in fixed-width arithmetic.

 Storage holds unsigned 128-bit totals and signed 128-bit corrections. Checked operations trap,
 here `Err(Overflow)`; shifts and casts drop bits, here `ShiftLeft`, `AsU64`, `AsI128`, `AsU128`.
 */
module Distribution {
  import opened Base

  const U64: int := 0x1_0000_0000_0000_0000
  const I128: int := 0x8000_0000_0000_0000_0000_0000_0000_0000
  const U128: int := 0x1_0000_0000_0000_0000_0000_0000_0000_0000

  /** Points are kept with 32 fractional bits. */
  const SCALE: nat := 0x1_0000_0000

  datatype Error = NoMembersToDistributeTo | Overflow

  datatype Config = Config(
    pointsPerPoints: nat,
    pointsLeftover: nat,
    distributedTotal: nat,
    withdrawableTotal: nat)

  const INITIAL_CONFIG := Config(0, 0, 0, 0)

  datatype Adjustment = Adjustment(pointsCorrection: int, withdrawnFunds: nat)

  const NO_ADJUSTMENT := Adjustment(0, 0)

  type Adjustments = map<Addr, Adjustment>

  function AdjustmentOf(adjustments: Adjustments, a: Addr): Adjustment {
    if a in adjustments then adjustments[a] else NO_ADJUSTMENT
  }

  // ---------------------------------------------------------------- fixed-width arithmetic

  function ShiftLeft(x: nat): nat {
    x * SCALE % U128
  }

  function ShiftRight(x: nat): nat {
    x / SCALE
  }

  function AsU64(x: nat): nat {
    x % U64
  }

  /** An unsigned 128-bit word read as a signed one. */
  function AsI128(x: nat): int {
    if x < I128 then x else x - U128
  }

  /** A signed 128-bit word read as an unsigned one. */
  function AsU128(x: int): nat
    requires FitsI128(x)
  {
    if x >= 0 then x else x + U128
  }

  predicate FitsI128(x: int) {
    -I128 <= x < I128
  }

  // ---------------------------------------------------------------- operations

  /** Hands out what arrived since the last distribution: the new config and the amount. */
  function DistributeRewards(c: Config, balance: nat, total: nat): Result<(Config, nat), Error> {
    if total == 0 then Err(NoMembersToDistributeTo)
    else if balance < c.withdrawableTotal then Err(Overflow)
    else
      var amount := balance - c.withdrawableTotal;
      if amount == 0 then Ok((c, 0))
      else
        var points := ShiftLeft(amount) + c.pointsLeftover;
        var perPoint := c.pointsPerPoints + points / total;
        var distributed := c.distributedTotal + amount;
        var withdrawable := c.withdrawableTotal + amount;
        if points >= U128 || perPoint >= U128 || distributed >= U128 || withdrawable >= U128 then Err(Overflow)
        else Ok((Config(perPoint, AsU64(points % total), distributed, withdrawable), amount))
  }

  function WithdrawableRewards(points: nat, c: Config, adjustment: Adjustment): Result<nat, Error> {
    var product := c.pointsPerPoints * points;
    if product >= U128 then Err(Overflow)
    else
      var earned := AsI128(product) + adjustment.pointsCorrection;
      if !FitsI128(earned) then Err(Overflow)
      else
        var amount := ShiftRight(AsU128(earned));
        if amount < adjustment.withdrawnFunds then Err(Overflow)
        else Ok(amount - adjustment.withdrawnFunds)
  }

  /** Pays out everything the owner may withdraw: the new storage and the amount. */
  function WithdrawRewards(c: Config, adjustments: Adjustments, owner: Addr, points: nat)
    : Result<(Config, Adjustments, nat), Error>
  {
    var adjustment := AdjustmentOf(adjustments, owner);
    match WithdrawableRewards(points, c, adjustment)
    case Err(e) => Err(e)
    case Ok(amount) =>
      if amount == 0 then Ok((c, adjustments, 0))
      else if adjustment.withdrawnFunds + amount >= U128 || c.withdrawableTotal < amount then Err(Overflow)
      else
        Ok((c.(withdrawableTotal := c.withdrawableTotal - amount),
            adjustments[owner := adjustment.(withdrawnFunds := adjustment.withdrawnFunds + amount)],
            amount))
  }

  function Corrected(c: Config, adjustment: Adjustment, diff: int): Result<Adjustment, Error> {
    var product := AsI128(c.pointsPerPoints) * diff;
    var correction := adjustment.pointsCorrection - product;
    if !FitsI128(product) || !FitsI128(correction) then Err(Overflow)
    else Ok(adjustment.(pointsCorrection := correction))
  }

  /** One correction for each change of points, in order. */
  function ApplyPointsCorrection(c: Config, adjustments: Adjustments,
                                 diffs: seq<(Addr, int)>): Result<Adjustments, Error>
    decreases |diffs|
  {
    if diffs == [] then Ok(adjustments)
    else
      var (a, diff) := diffs[0];
      match Corrected(c, AdjustmentOf(adjustments, a), diff)
      case Err(e) => Err(e)
      case Ok(adjustment) => ApplyPointsCorrection(c, adjustments[a := adjustment], diffs[1..])
  }

  // ---------------------------------------------------------------- the storage object

  class RewardDistribution {
    var config: Config
    var adjustments: Adjustments

    constructor ()
      ensures config == INITIAL_CONFIG && adjustments == map[]
    {
      config, adjustments := INITIAL_CONFIG, map[];
    }

    method Distribute(balance: nat, total: nat) returns (r: Result<nat, Error>)
      modifies `config
      ensures match DistributeRewards(old(config), balance, total)
              case Ok((c, amount)) => r == Ok(amount) && config == c
              case Err(e) => r == Err(e) && config == old(config)
    {
      if total == 0 {
        return Err(NoMembersToDistributeTo);
      }
      if balance < config.withdrawableTotal {
        return Err(Overflow);
      }
      var amount := balance - config.withdrawableTotal;
      if amount == 0 {
        return Ok(0);
      }
      var points := ShiftLeft(amount) + config.pointsLeftover;
      var updated := config.(
        pointsLeftover := AsU64(points % total),
        pointsPerPoints := config.pointsPerPoints + points / total,
        distributedTotal := config.distributedTotal + amount,
        withdrawableTotal := config.withdrawableTotal + amount);
      if points >= U128 || updated.pointsPerPoints >= U128
         || updated.distributedTotal >= U128 || updated.withdrawableTotal >= U128 {
        return Err(Overflow);
      }
      config := updated;
      return Ok(amount);
    }

    method Withdraw(owner: Addr, points: nat) returns (r: Result<nat, Error>)
      modifies this
      ensures match WithdrawRewards(old(config), old(adjustments), owner, points)
              case Ok((c, adj, amount)) => r == Ok(amount) && config == c && adjustments == adj
              case Err(e) => r == Err(e) && config == old(config) && adjustments == old(adjustments)
    {
      var adjustment := AdjustmentOf(adjustments, owner);
      var withdrawable := WithdrawableRewards(points, config, adjustment);
      if withdrawable.Err? {
        return withdrawable;
      }
      var amount := withdrawable.value;
      if amount == 0 {
        return Ok(0);
      }
      if adjustment.withdrawnFunds + amount >= U128 || config.withdrawableTotal < amount {
        return Err(Overflow);
      }
      adjustments := adjustments[owner := adjustment.(withdrawnFunds := adjustment.withdrawnFunds + amount)];
      config := config.(withdrawableTotal := config.withdrawableTotal - amount);
      return Ok(amount);
    }

    method CorrectPoints(diffs: seq<(Addr, int)>) returns (r: Result<(), Error>)
      modifies `adjustments
      ensures match ApplyPointsCorrection(config, old(adjustments), diffs)
              case Ok(adj) => r.Ok? && adjustments == adj
              case Err(e) => r == Err(e) && adjustments == old(adjustments)
    {
      var before := adjustments;
      for i := 0 to |diffs|
        invariant ApplyPointsCorrection(config, adjustments, diffs[i..]) == ApplyPointsCorrection(config, before, diffs)
      {
        assert diffs[i..][1..] == diffs[i + 1..];
        var corrected := Corrected(config, AdjustmentOf(adjustments, diffs[i].0), diffs[i].1);
        if corrected.Err? {
          adjustments := before;
          return Err(corrected.error);
        }
        adjustments := adjustments[diffs[i].0 := corrected.value];
      }
      return Ok(());
    }
  }
}
