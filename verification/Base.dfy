/**
 Types shared by all contracts.

 An address is represented by its rank in the byte order of the storage keys, so that
 "ascending key order", which the source's range queries use, is the order on numbers.
 */
module Base {
  type Addr = nat

  datatype Option<+T> = None | Some(value: T)

  datatype Result<+T, +E> = Ok(value: T) | Err(error: E)

  const NANOS_PER_SECOND: nat := 1_000_000_000

  /** A block: height, and time in nanoseconds. */
  datatype Block = Block(height: nat, time: nat) {
    /** The timestamp in whole seconds. */
    function Seconds(): nat {
      time / NANOS_PER_SECOND
    }

    /** Neither height nor time runs backwards from `this` to `later`. */
    ghost predicate NotAfter(later: Block) {
      height <= later.height && time <= later.time
    }
  }

  datatype Expiration = AtHeight(height: nat) | AtTime(time: nat) | Never {
    predicate IsExpired(block: Block) {
      match this
      case AtHeight(h) => block.height >= h
      case AtTime(t) => block.time >= t
      case Never => false
    }
  }

  datatype Duration = Height(blocks: nat) | Time(seconds: nat) {
    function After(block: Block): Expiration {
      match this
      case Height(h) => AtHeight(block.height + h)
      case Time(s) => AtTime(block.time + s * NANOS_PER_SECOND)
    }
  }

  /** A message to a contract, in the block in which it is executed. */
  datatype Transaction<+M> = Call(block: Block, sender: Addr, message: M)

  /** The calls' blocks do not run backwards, from block `start` on. */
  ghost predicate Ordered<M>(start: Block, calls: seq<Transaction<M>>)
    decreases |calls|
  {
    calls == [] || (start.NotAfter(calls[0].block) && Ordered(calls[0].block, calls[1..]))
  }

  function LastBlock<M>(start: Block, calls: seq<Transaction<M>>): Block {
    if calls == [] then start else calls[|calls| - 1].block
  }

  lemma {:induction false} OrderedLast<M>(block: Block, calls: seq<Transaction<M>>)
    requires Ordered(block, calls)
    ensures block.NotAfter(LastBlock(block, calls))
    decreases |calls|
  {
    if calls == [] {
    } else {
      OrderedLast(calls[0].block, calls[1..]);
    }
  }

  lemma {:induction false} OrderedConcat<M>(block: Block, one: seq<Transaction<M>>, two: seq<Transaction<M>>)
    requires Ordered(block, one) && Ordered(LastBlock(block, one), two)
    ensures Ordered(block, one + two)
    decreases |one|
  {
    if one == [] {
      assert one + two == two;
    } else {
      assert (one + two)[1..] == one[1..] + two;
      OrderedConcat(one[0].block, one[1..], two);
    }
  }

  /** What a method did is what the function of its operation says. */
  ghost predicate Does<T, S, E>(r: Result<T, E>, spec: Result<S, E>, now: S) {
    match spec
    case Ok(s) => r.Ok? && now == s
    case Err(e) => r.Err? && r.error == e
  }

  lemma SecondsMonotone(block: Block, later: Block)
    requires block.NotAfter(later)
    ensures block.Seconds() <= later.Seconds()
  {
  }

  /** Comparing nanoseconds with a deadline in seconds is comparing whole seconds. */
  lemma DeadlineInSeconds(block: Block, deadline: nat)
    ensures block.time >= deadline * NANOS_PER_SECOND <==> block.Seconds() >= deadline
  {
    assert block.time == block.Seconds() * NANOS_PER_SECOND + block.time % NANOS_PER_SECOND;
  }
}
