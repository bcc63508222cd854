/**
 How a circle comes to a standstill for good: a member is voted in, leaves before paying, and stays
 named in his batch.
 */
module CircleScenario {
  import opened Base
  import opened Sums
  import opened Voting
  import opened Circle
  import opened CircleInvariant
  import opened CirclePromotion
  import opened CircleEffects
  import opened CircleIndex
  import opened CircleFounding
  import opened CircleRuns

  // ---------------------------------------------------------------- a standstill lasts

  /** Somebody named in a batch that is ready is gone, and no proposal is left that could bring him back. */
  ghost predicate Standstill(s: State, now: nat) {
    !NobodyMissing(s, now) && forall id :: id in s.proposals ==> s.proposals[id].status in {Executed, Rejected}
  }

  /** Batches that are ready keep their missing members while nobody is added. */
  lemma MissingStays(s: State, next: State, now: nat)
    requires !NobodyMissing(s, now) && next.escrows.Keys <= s.escrows.Keys
    requires forall id :: id in s.batches && s.batches[id].IsReady(now)
                          && !(Names(s.batches[id].members) <= s.escrows.Keys) ==>
      id in next.batches && next.batches[id].IsReady(now) && next.batches[id].members == s.batches[id].members
    ensures !NobodyMissing(next, now)
  {
    var id :| id in s.batches && s.batches[id].IsReady(now) && !(Names(s.batches[id].members) <= s.escrows.Keys);
    assert Names(next.batches[id].members) == Names(s.batches[id].members);
  }

  /** A batch with a missing member is not promoted by a deposit either. */
  lemma DepositMisses(s: State, block: Block, id: nat, paid: Addr)
    requires UpdateBatchAfterEscrowPaid(s, block, id, paid).Ok? && !NobodyMissing(s, block.Seconds())
    ensures !NobodyMissing(UpdateBatchAfterEscrowPaid(s, block, id, paid).value, block.Seconds())
  {
    hide ConvertEach, NobodyMissing;
    var batch := s.batches[id].(waitingEscrow := s.batches[id].waitingEscrow - 1);
    var next := UpdateBatchAfterEscrowPaid(s, block, id, paid).value;
    if batch.CanPromote(block) && !batch.batchPromoted {
      ConvertEachSucceedsIff(s, batch.members);
      ConvertEachResult(s, batch.members);
      ConvertEachBatches(s, batch.members);
      assert Names(batch.members) <= s.escrows.Keys;
    }
    MissingStays(s, next, block.Seconds());
  }

  lemma DepositStands(s: State, block: Block, sender: Addr, amount: nat)
    requires Deposit(s, block, sender, amount).Ok? && !NobodyMissing(s, block.Seconds())
    ensures !NobodyMissing(Deposit(s, block, sender, amount).value, block.Seconds())
    ensures Deposit(s, block, sender, amount).value.proposals == s.proposals
  {
    hide UpdateBatchAfterEscrowPaid, NobodyMissing;
    var e := s.escrows[sender].(paid := s.escrows[sender].paid + amount);
    var next := Deposit(s, block, sender, amount).value;
    DepositUntouched(s, block, sender, amount);
    if e.status.Pending? && e.paid >= s.circle.GetEscrow() {
      var id := e.status.proposalId;
      var paid := s.(escrows := s.escrows[sender := e.(status := PendingPaid(id))],
                     ledger := s.ledger.(deposited := s.ledger.deposited + amount));
      MissingStays(s, paid, block.Seconds());
      DepositMisses(paid, block, id, sender);
    } else {
      MissingStays(s, next, block.Seconds());
    }
  }

  lemma LeaveStands(s: State, block: Block, sender: Addr)
    requires Leave(s, block, sender).Ok? && Standstill(s, block.Seconds())
    ensures Standstill(Leave(s, block, sender).value, block.Seconds())
  {
    hide AdjustForLeaver, OpenProposalIds, NobodyMissing;
    var next := Leave(s, block, sender).value;
    var ids := OpenProposalIds(s.byExpiry, block.Seconds());
    if AdjustForLeaver(s.proposals, s.ballots, sender, ids).Ok? {
      AdjustForLeaverResult(s.proposals, s.ballots, sender, ids);
    }
    MissingStays(s, next, block.Seconds());
  }

  lemma StandsLater(s: State, now: nat, later: nat)
    requires Standstill(s, now) && now <= later
    ensures Standstill(s, later)
  {
  }

  lemma NoProposalMade(s: State, block: Block, sender: Addr, content: Content, others: Others)
    requires Inv(s, block.Seconds()) && !NobodyMissing(s, block.Seconds()) && block.height > 0
    ensures CheckAllPending(s, block).Err? && ProposeContent(s, block, sender, content, others).Err?
  {
    hide CheckAllPending, Inv, NobodyMissing, ValidateContent;
    CheckPendingSucceedsIff(s, block);
  }

  lemma StepStands(s: State, call: Call)
    requires Inv(s, call.block.Seconds()) && Standstill(s, call.block.Seconds()) && call.block.height > 0
    ensures Standstill(Step(s, call), call.block.Seconds())
  {
    hide Inv, NobodyMissing, Deposit, CheckAllPending, ProposeContent, Leave, ExecuteContent, VotesNeeded;
    if Handle(s, call).Ok? {
      match call.message
      case DepositEscrow(amount) => DepositStands(s, call.block, call.sender, amount);
      case ReturnEscrow => MissingStays(s, Handle(s, call).value, call.block.Seconds());
      case Propose(content, others) => NoProposalMade(s, call.block, call.sender, content, others);
      case CastVote(_, _, _) =>
      case Execute(_, _) =>
      case Close(_) =>
      case LeaveTrustedCircle => LeaveStands(s, call.block, call.sender);
      case CheckPending => NoProposalMade(s, call.block, 0, WhitelistContract(0), NOBODY);
    }
  }

  /** From a standstill no run leads out: never again can anybody make a proposal, of any content. */
  lemma {:induction false} StandstillLasts(s: State, block: Block, calls: seq<Call>)
    requires Inv(s, block.Seconds()) && Standstill(s, block.Seconds()) && block.height > 0 && Ordered(block, calls)
    ensures
      var end, last := Run(s, calls), LastBlock(block, calls);
      && Standstill(end, last.Seconds())
      && (forall sender, content, others :: ProposeContent(end, last, sender, content, others).Err?)
    decreases |calls|
  {
    hide Inv, Standstill, Step, ProposeContent;
    if calls == [] {
      SomebodyMissing(s, block.Seconds());
      forall sender, content, others ensures ProposeContent(s, block, sender, content, others).Err? {
        NoProposalMade(s, block, sender, content, others);
      }
    } else {
      var soon := calls[0].block;
      SecondsMonotone(block, soon);
      StandsLater(s, block.Seconds(), soon.Seconds());
      InvLater(s, block.Seconds(), soon.Seconds());
      StepStands(s, calls[0]);
      StepKeeps(s, block, calls[0]);
      StandstillLasts(Step(s, calls[0]), soon, calls[1..]);
    }
  }

  lemma SomebodyMissing(s: State, now: nat)
    requires Standstill(s, now)
    ensures !NobodyMissing(s, now)
  {
  }

  // ---------------------------------------------------------------- a run that reaches one

  /** The founder lets in a member, who leaves before he pays. */
  function Calls(block: Block): seq<Call> {
    [Call(block, 0, Propose(AddVotingMembers([1]), NOBODY)),
     Call(block, 1, Execute(1, NOBODY)),
     Call(block, 1, LeaveTrustedCircle)]
  }

  lemma RunOfThree(s: State, a: Call, b: Call, c: Call)
    ensures Run(s, [a, b, c]) == Step(Step(Step(s, a), b), c)
  {
    hide Step;
    assert [a, b, c][1..] == [b, c] && [b, c][1..] == [c] && [c][1..] == [];
    assert Run(s, [a, b, c]) == Run(Step(s, a), [b, c]);
    assert Run(Step(s, a), [b, c]) == Run(Step(Step(s, a), b), [c]);
  }

  function Waiting(block: Block): State {
    Awaited(Proposed(Founded(), block, AddVotingMembers([1])), block, 1, 1)
  }

  /** The storage after the new member left: his batch still names him. */
  function Left(block: Block): State {
    Waiting(block).(members := map[0 := 1], escrows := map[0 := EscrowStatus(STAKE, Voting)])
  }

  lemma MemberLeaves(block: Block)
    ensures Handle(Waiting(block), Call(block, 1, LeaveTrustedCircle)) == Ok(Left(block))
  {
    var s := Waiting(block);
    assert s.members - {1} == map[0 := 1];
    assert s.escrows - {1} == map[0 := EscrowStatus(STAKE, Voting)];
  }

  lemma LeftStands(block: Block, now: nat)
    requires now >= block.Seconds() + SECONDS_PER_DAY
    ensures Standstill(Left(block), now)
  {
    assert 1 in Names(Left(block).batches[1].members);
  }

  /** From a day later on, in no run that follows, nobody can make a proposal any more. */
  lemma LeaverStopsTheCircle(block: Block, later: Block, calls: seq<Call>)
    requires block.NotAfter(later) && later.Seconds() >= block.Seconds() + SECONDS_PER_DAY && later.height > 0
    requires Ordered(later, calls)
    ensures Instantiate(0, STAKE, FOUNDING, {}).Ok?
    ensures
      var s := Run(Instantiate(0, STAKE, FOUNDING, {}).value, Calls(block));
      forall sender, content, others ::
        ProposeContent(Run(s, calls), LastBlock(later, calls), sender, content, others).Err?
  {
    hide Run, Instantiate, ProposeContent, Inv, Standstill, Handle, Left;
    FoundedByInstantiate();
    LeftAfterCalls(block);
    LeftInv(block, later);
    LeftStands(block, later.Seconds());
    StandstillLasts(Left(block), later, calls);
  }

  lemma CallsGoThrough(block: Block)
    ensures Handle(Founded(), Calls(block)[0]) == Ok(Proposed(Founded(), block, AddVotingMembers([1])))
    ensures Handle(Proposed(Founded(), block, AddVotingMembers([1])), Calls(block)[1]) == Ok(Waiting(block))
    ensures Handle(Waiting(block), Calls(block)[2]) == Ok(Left(block))
  {
    hide Handle, Left;
    AdmissionValid(Founded(), block, 1);
    FounderProposes(Founded(), block, AddVotingMembers([1]));
    AdmissionExecutes(Proposed(Founded(), block, AddVotingMembers([1])), block, 1, 1);
    MemberLeaves(block);
  }

  lemma LeftAfterCalls(block: Block)
    ensures Run(Founded(), Calls(block)) == Left(block)
  {
    hide Run, Handle, Left, Waiting, Proposed;
    CallsGoThrough(block);
    RunOfThree(Founded(), Calls(block)[0], Calls(block)[1], Calls(block)[2]);
  }

  lemma LeftInv(block: Block, later: Block)
    requires block.NotAfter(later)
    ensures Inv(Left(block), later.Seconds())
  {
    hide Inv, Handle, Left, Waiting, Proposed, Instantiate;
    CallsGoThrough(block);
    InstantiateEstablishes(block, 0, STAKE, FOUNDING, {});
    FoundedByInstantiate();
    HandleKeeps(Founded(), Calls(block)[0]);
    HandleKeeps(Proposed(Founded(), block, AddVotingMembers([1])), Calls(block)[1]);
    HandleKeeps(Waiting(block), Calls(block)[2]);
    SecondsMonotone(block, later);
    InvLater(Left(block), block.Seconds(), later.Seconds());
  }
}
