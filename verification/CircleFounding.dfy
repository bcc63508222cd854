/**
 A small circle, and what its founder can do while he decides alone: the states that runs of it go
 through, one written out after the other.
 */
module CircleFounding {
  import opened Base
  import opened Sums
  import opened Voting
  import opened Circle
  import opened CircleInvariant
  import opened CirclePromotion
  import opened CircleRuns
  import opened CircleIndex

  const STAKE: nat := 2 * ONE_TGD
  const FIFTY_ONE_PERCENT: Fraction := 510_000_000_000_000_000

  /** No address is denied, and none is a contract. */
  const NOBODY := Others({}, {})

  /** One founder; proposals last a day and may end early; half must vote, and 51% of them agree. */
  const FOUNDING := InstantiateMsg("c", STAKE, Rules(1, HALF, FIFTY_ONE_PERCENT, true), false, [])

  function Founded(): State {
    FirstState(0, STAKE, FOUNDING.Circle())
  }

  lemma FoundedByInstantiate()
    ensures Instantiate(0, STAKE, FOUNDING, {}) == Ok(Founded())
  {
    assert !IsWhiteSpace(FOUNDING.name[0]);
    assert !IsBlank(FOUNDING.name);
    assert Utf8Length(FOUNDING.name[1..]) == 0;
  }

  // ---------------------------------------------------------------- states of runs

  /** The state after some run of the circle, from its instantiation, whose last call was in `block`. */
  ghost predicate Reachable(s: State, block: Block) {
    exists start, calls: seq<Call> ::
      Ordered(start, calls) && LastBlock(start, calls) == block
      && Instantiate(0, STAKE, FOUNDING, {}).Ok? && s == Run(Instantiate(0, STAKE, FOUNDING, {}).value, calls)
  }

  lemma FoundedReachable(block: Block)
    ensures Reachable(Founded(), block)
  {
    hide Instantiate;
    FoundedByInstantiate();
    var none: seq<Call> := [];
    assert Ordered(block, none) && LastBlock(block, none) == block && Run(Founded(), none) == Founded();
  }

  lemma {:induction false} RunThen(s: State, calls: seq<Call>, call: Call)
    ensures Run(s, calls + [call]) == Step(Run(s, calls), call)
    decreases |calls|
  {
    hide Step;
    if calls == [] {
      assert [call][1..] == [];
      assert calls + [call] == [call];
    } else {
      assert (calls + [call])[1..] == calls[1..] + [call];
      RunThen(Step(s, calls[0]), calls[1..], call);
    }
  }

  /** A message that goes through leads from a state of a run to the next. */
  lemma ReachNext(s: State, block: Block, call: Call, next: State)
    requires Reachable(s, block) && block.NotAfter(call.block) && Handle(s, call) == Ok(next)
    ensures Reachable(next, call.block)
  {
    hide Handle, Instantiate, Run, Ordered;
    var start, calls: seq<Call> :| Ordered(start, calls) && LastBlock(start, calls) == block
      && Instantiate(0, STAKE, FOUNDING, {}).Ok? && s == Run(Instantiate(0, STAKE, FOUNDING, {}).value, calls);
    RunThen(Instantiate(0, STAKE, FOUNDING, {}).value, calls, call);
    OneOrdered(block, call);
    OrderedConcat(start, calls, [call]);
    assert LastBlock(start, calls + [call]) == call.block;
  }

  lemma OneOrdered(block: Block, call: Call)
    requires block.NotAfter(call.block)
    ensures Ordered(block, [call])
  {
    assert [call][1..] == [];
  }

  /** Such a state has all that every run keeps. */
  lemma ReachableSound(s: State, block: Block)
    requires Reachable(s, block)
    ensures Inv(s, block.Seconds()) && Indexed(s)
  {
    hide Inv, Indexed, Instantiate, Run, Ordered;
    var start, calls: seq<Call> :| Ordered(start, calls) && LastBlock(start, calls) == block
      && Instantiate(0, STAKE, FOUNDING, {}).Ok? && s == Run(Instantiate(0, STAKE, FOUNDING, {}).value, calls);
    InstantiateEstablishes(start, 0, STAKE, FOUNDING, {});
    RunKeeps(Instantiate(0, STAKE, FOUNDING, {}).value, start, calls);
    ReachableIndexed(start, 0, STAKE, FOUNDING, {}, calls);
  }

  // ---------------------------------------------------------------- proposing

  /** The settings as founded, every batch promoted, and the founder voting. */
  ghost predicate Quiet(s: State) {
    && s.circle == FOUNDING.Circle()
    && (forall id :: id in s.batches ==> s.batches[id].batchPromoted)
    && 0 in s.members && s.members[0] == 1
  }

  lemma QuietCheck(s: State, block: Block)
    requires Quiet(s)
    ensures CheckAllPending(s, block) == Ok(s)
  {
    assert (set id | id in s.batches && s.batches[id].IsReady(block.Seconds())) == {};
  }

  /** The founder's vote decides alone, and not against another voter. */
  lemma FounderDecides()
    ensures VotesNeeded(1, HALF) == 1 && VotesNeeded(1, FIFTY_ONE_PERCENT) == 1
    ensures VotesNeeded(2, HALF) == 1 && VotesNeeded(2, FIFTY_ONE_PERCENT) == 2
  {
  }

  /** What the founder proposes: passed at once if he is the only voter, else open for a day. */
  function Draft(s: State, block: Block, content: Content): Proposal {
    Proposal(block.height, block.time + SECONDS_PER_DAY * NANOS_PER_SECOND, content,
             if s.total == 1 then Passed else Open, FOUNDING.rules, s.total, Votes(1, 0, 0, 0))
  }

  function Proposed(s: State, block: Block, content: Content): State {
    CreateProposal(s, 0, 1, Draft(s, block, content))
  }

  lemma FounderProposes(s: State, block: Block, content: Content)
    requires Quiet(s) && 1 <= s.total <= 2 && ValidateContent(s, block, content, NOBODY).Ok?
    ensures Handle(s, Call(block, 0, Propose(content, NOBODY))) == Ok(Proposed(s, block, content))
  {
    hide Proposal.UpdateStatus, CheckAllPending, ValidateContent;
    QuietCheck(s, block);
    DraftStatus(s, block, content);
  }

  lemma DraftStatus(s: State, block: Block, content: Content)
    requires 1 <= s.total <= 2
    ensures Draft(s, block, content).(status := Open).UpdateStatus(block) == Ok(Draft(s, block, content))
  {
    hide VotesNeeded;
    FounderDecides();
  }

  lemma DayAhead(block: Block)
    ensures (block.time + SECONDS_PER_DAY * NANOS_PER_SECOND) / NANOS_PER_SECOND == block.Seconds() + SECONDS_PER_DAY
  {
  }

  // ---------------------------------------------------------------- a new member

  lemma AdmissionValid(s: State, block: Block, a: Addr)
    ensures ValidateContent(s, block, AddVotingMembers([a]), NOBODY).Ok?
  {
  }

  /** After the execution: pending in a batch of his own, with a day to pay. */
  function Awaited(s: State, block: Block, id: nat, a: Addr): State
    requires id in s.proposals
  {
    s.(proposals := s.proposals[id := s.proposals[id].(status := Executed)],
       members := s.members[a := 0],
       escrows := s.escrows[a := EscrowStatus(0, MemberStatus.Pending(id))],
       batches := s.batches[id := Batch(block.Seconds() + SECONDS_PER_DAY, 1, false, [a])])
  }

  lemma AdmissionExecutes(s: State, block: Block, id: nat, a: Addr)
    requires id in s.proposals && s.proposals[id].status == Passed && s.proposals[id].content == AddVotingMembers([a])
    requires s.circle == FOUNDING.Circle() && id !in s.batches && a !in s.escrows
    ensures Handle(s, Call(block, a, Execute(id, NOBODY))) == Ok(Awaited(s, block, id, a))
  {
    var next := Awaited(s, block, id, a);
    assert AddPending(next, id, []) == next;
    assert [a][1..] == [];
  }

  /** After he paid: a voter. */
  function Joined(s: State, id: nat, a: Addr): State
    requires id in s.batches
  {
    s.(escrows := s.escrows[a := EscrowStatus(STAKE, Voting)],
       members := s.members[a := 1],
       batches := s.batches[id := s.batches[id].(waitingEscrow := 0, batchPromoted := true)],
       total := s.total + 1,
       ledger := s.ledger.(deposited := s.ledger.deposited + STAKE))
  }

  lemma PaymentJoins(s: State, block: Block, id: nat, a: Addr)
    requires s.circle == FOUNDING.Circle()
    requires a in s.escrows && s.escrows[a] == EscrowStatus(0, MemberStatus.Pending(id))
    requires id in s.batches && s.batches[id].waitingEscrow == 1 && s.batches[id].members == [a]
    requires !s.batches[id].batchPromoted
    ensures Handle(s, Call(block, a, DepositEscrow(STAKE))) == Ok(Joined(s, id, a))
  {
    var paid := s.(escrows := s.escrows[a := EscrowStatus(STAKE, PendingPaid(id))],
                   ledger := s.ledger.(deposited := s.ledger.deposited + STAKE));
    var batch := s.batches[id].(waitingEscrow := 0);
    AloneInBatch(paid, a);
    assert paid.escrows[a := EscrowStatus(STAKE, Voting)] == Joined(s, id, a).escrows;
    assert ConvertAllPaid(paid, id, batch) == Ok(Joined(s, id, a));
    assert Deposit(s, block, a, STAKE) == UpdateBatchAfterEscrowPaid(paid, block, id, a);
  }

  lemma AloneInBatch(s: State, a: Addr)
    requires a in s.escrows && s.escrows[a].status.PendingPaid?
    ensures ConvertEach(s, [a]) ==
      Ok((s.(escrows := s.escrows[a := s.escrows[a].(status := Voting)], members := s.members[a := 1]), 1))
  {
    assert [a][1..] == [];
  }

  /** The state after the founder, alone, let in another voter. */
  function Admitted(s: State, block: Block, a: Addr): State {
    var id := s.proposalCount + 1;
    Joined(Awaited(Proposed(s, block, AddVotingMembers([a])), block, id, a), id, a)
  }

  lemma FounderAdmits(s: State, before: Block, block: Block, a: Addr)
    requires Reachable(s, before) && before.NotAfter(block) && Quiet(s) && s.total == 1 && a != 0 && a !in s.escrows
    requires forall id :: id in s.batches ==> id <= s.proposalCount
    ensures Reachable(Admitted(s, block, a), block)
  {
    hide Handle, Reachable;
    var content, id := AddVotingMembers([a]), s.proposalCount + 1;
    var proposed := Proposed(s, block, content);
    var awaited := Awaited(proposed, block, id, a);
    AdmissionValid(s, block, a);
    FounderProposes(s, block, content);
    ReachNext(s, before, Call(block, 0, Propose(content, NOBODY)), proposed);
    AdmissionExecutes(proposed, block, id, a);
    ReachNext(proposed, block, Call(block, a, Execute(id, NOBODY)), awaited);
    PaymentJoins(awaited, block, id, a);
    ReachNext(awaited, block, Call(block, a, DepositEscrow(STAKE)), Joined(awaited, id, a));
  }
}
