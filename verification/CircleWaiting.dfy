/**
 Who waits for promotion, and for how long: what checking the pending changes does to every member,
 and the paid members that no batch will promote any more.
 */
module CircleWaiting {
  import opened Base
  import opened Sums
  import opened Voting
  import opened Circle
  import opened CircleInvariant
  import opened CirclePromotion
  import opened CircleGovernance
  import opened CircleRuns
  import opened CircleEffects

  // ---------------------------------------------------------------- checking the pending changes

  /** Everybody named in one of these batches. */
  ghost function NamedIn(batches: map<nat, Batch>, ids: seq<nat>): set<Addr>
    requires forall i :: 0 <= i < |ids| ==> ids[i] in batches
  {
    if ids == [] then {} else Names(batches[ids[0]].members) + NamedIn(batches, ids[1..])
  }

  lemma {:induction false} NamedInIff(batches: map<nat, Batch>, ids: seq<nat>, a: Addr)
    requires forall i :: 0 <= i < |ids| ==> ids[i] in batches
    ensures a in NamedIn(batches, ids) <==> exists id :: id in ids && a in batches[id].members
    decreases |ids|
  {
    if ids == [] {
    } else {
      NamedInIff(batches, ids[1..], a);
      assert forall id :: id in ids <==> id == ids[0] || id in ids[1..];
    }
  }

  lemma {:induction false} SameNamed(batches: map<nat, Batch>, other: map<nat, Batch>, ids: seq<nat>)
    requires forall i :: 0 <= i < |ids| ==> ids[i] in batches && ids[i] in other
    requires forall id :: id in batches && id in other ==> other[id].members == batches[id].members
    ensures NamedIn(other, ids) == NamedIn(batches, ids)
    decreases |ids|
  {
    if ids == [] {
    } else {
      SameNamed(batches, other, ids[1..]);
    }
  }

  /** What a batch's promotion makes of a member. */
  function Promoted(e: EscrowStatus, named: bool): EscrowStatus {
    if named && e.status.PendingPaid? then e.(status := Voting) else e
  }

  lemma {:induction false} ConvertBatchesResult(s: State, ids: seq<nat>)
    requires (forall i :: 0 <= i < |ids| ==> ids[i] in s.batches) && ConvertBatches(s, ids).Ok?
    ensures
      var next := ConvertBatches(s, ids).value;
      && next.escrows.Keys == s.escrows.Keys
      && (forall a :: a in s.escrows ==> next.escrows[a] == Promoted(s.escrows[a], a in NamedIn(s.batches, ids)))
      && next.batches.Keys == s.batches.Keys
      && forall id :: id in s.batches ==>
           next.batches[id] == if id in ids then s.batches[id].(batchPromoted := true) else s.batches[id]
    decreases |ids|
  {
    if ids == [] {
    } else {
      hide ConvertEach;
      var id := ids[0];
      var next := ConvertAllPaid(s, id, s.batches[id]).value;
      ConvertEachResult(s, s.batches[id].members);
      ConvertEachBatches(s, s.batches[id].members);
      assert next.batches == s.batches[id := s.batches[id].(batchPromoted := true)];
      ConvertBatchesResult(next, ids[1..]);
      SameNamed(s.batches, next.batches, ids[1..]);
      assert forall p :: p in ids <==> p == id || p in ids[1..];
    }
  }

  predicate EscrowDue(s: State, now: nat) {
    s.circle.escrowPending.Some? && now >= s.circle.escrowPending.value.graceEndsAt
  }

  /** What a due change of escrow makes of a member. */
  function AfterDue(s: State, now: nat, e: EscrowStatus): EscrowStatus {
    if EscrowDue(s, now) then
      var p := s.circle.escrowPending.value;
      AfterEscrowChange(e, p.proposalId, s.circle.escrowAmount, p.amount)
    else e
  }

  ghost predicate ReadyNames(s: State, now: nat, a: Addr) {
    exists id :: id in s.batches && s.batches[id].IsReady(now) && a in s.batches[id].members
  }

  /** A batch a change of escrow may add names members it demotes, and nothing else changes in batches. */
  lemma EscrowCheckBatches(s: State, block: Block)
    requires Inv(s, block.Seconds())
    ensures CheckPendingEscrow(s, block).Ok?
    ensures
      var next := CheckPendingEscrow(s, block).value;
      && next.escrows.Keys == s.escrows.Keys
      && (forall a :: a in s.escrows ==> next.escrows[a] == AfterDue(s, block.Seconds(), s.escrows[a]))
      && (forall id :: id in s.batches ==> id in next.batches && next.batches[id] == s.batches[id])
      && (forall id, a :: id in next.batches && id !in s.batches && a in next.batches[id].members ==>
            a in s.escrows && s.escrows[a].status == Voting)
  {
    hide Inv, DemoteEach, PromoteEach, Ascending;
    CheckPendingEscrowKeeps(s, block);
    EscrowCheckFrame(s, block);
    if EscrowDue(s, block.Seconds()) {
      var p := s.circle.escrowPending.value;
      EscrowChangeResult(s, block, p.proposalId, s.circle.escrowAmount, p.amount);
      NewBatchOfVoters(s, block, p.proposalId, s.circle.escrowAmount, p.amount);
    }
  }

  lemma NewBatchOfVoters(s: State, block: Block, id: nat, amount: nat, newAmount: nat)
    requires DemotePromote(s, block, id, amount, newAmount).Ok?
    ensures
      var next := DemotePromote(s, block, id, amount, newAmount).value;
      forall p, a :: p in next.batches && p !in s.batches && a in next.batches[p].members ==>
        a in s.escrows && s.escrows[a].status == Voting
  {
    hide DemoteEach, PromoteEach, BelowEscrowVoters, PaidPending;
    DemoteEachFrame(s, id, BelowEscrowVoters(s.escrows, newAmount));
    PromoteEachFrame(s, PaidPending(s.escrows, newAmount));
    DemotedVoters(s, newAmount);
  }

  lemma DemotedVoters(s: State, amount: nat)
    ensures forall a :: a in BelowEscrowVoters(s.escrows, amount) ==> a in s.escrows && s.escrows[a].status == Voting
  {
    hide Ascending;
  }

  /** What checking the pending changes does to every member: a due escrow first, and then whoever paid
      and is named in a batch that is ready becomes a voter. */
  lemma CheckAllPendingResult(s: State, block: Block)
    requires Inv(s, block.Seconds()) && CheckAllPending(s, block).Ok?
    ensures
      var now := block.Seconds();
      var next := CheckAllPending(s, block).value;
      && next.escrows.Keys == s.escrows.Keys
      && forall a :: a in s.escrows ==>
           next.escrows[a] == Promoted(AfterDue(s, now, s.escrows[a]), ReadyNames(s, now, a))
  {
    hide Inv, CheckPendingEscrow, ConvertBatches, NamedIn, Ascending;
    var now := block.Seconds();
    EscrowCheckBatches(s, block);
    var middle := CheckPendingEscrow(s, block).value;
    var ready := ReadyBatches(middle.batches, now);
    assert forall id :: id in ready <==> id in middle.batches && middle.batches[id].IsReady(now);
    forall i | 0 <= i < |ready| ensures ready[i] in middle.batches {
      assert ready[i] in ready;
    }
    ConvertBatchesResult(middle, ready);
    var next := CheckAllPending(s, block).value;
    forall a | a in s.escrows
      ensures next.escrows[a] == Promoted(AfterDue(s, now, s.escrows[a]), ReadyNames(s, now, a))
    {
      NamedInIff(middle.batches, ready, a);
      if AfterDue(s, now, s.escrows[a]).status.PendingPaid? && a in NamedIn(middle.batches, ready) {
        var id :| id in ready && a in middle.batches[id].members;
        assert id in s.batches;
      }
    }
  }

  // ---------------------------------------------------------------- who can still be promoted

  /** A batch that is still to be promoted names the member. */
  ghost predicate Named(s: State, a: Addr) {
    exists id :: id in s.batches && !s.batches[id].batchPromoted && a in s.batches[id].members
  }

  function Max(x: nat, y: nat): nat {
    if x < y then y else x
  }

  /** Whether a batch can still be promoted: nobody it names is gone, and either somebody has yet to pay
      in it, or when its time is over nobody named in any batch that is ready then is gone. */
  ghost predicate Promotable(s: State, now: nat, id: nat)
    requires id in s.batches
  {
    var batch := s.batches[id];
    && !batch.batchPromoted && Names(batch.members) <= s.escrows.Keys
    && (Waiting(s.escrows, id) != {} || NobodyMissing(s, Max(now, batch.graceEndsAt)))
  }

  ghost predicate HasPromotable(s: State, now: nat, a: Addr) {
    exists id :: id in s.batches && a in s.batches[id].members && Promotable(s, now, id)
  }

  /** In a step without an executed proposal nobody is added to the members or to those who wait in a
      batch, batches keep their names and times, none is unpromoted again, one is promoted only while
      nobody it names is gone, and a new one names only members that voted. */
  ghost predicate BatchesAge(s: State, next: State) {
    && next.escrows.Keys <= s.escrows.Keys
    && (forall id :: id in s.batches ==> id in next.batches && Ages(s.batches[id], next.batches[id], s.escrows.Keys))
    && (forall id :: id in s.batches ==> Waiting(next.escrows, id) <= Waiting(s.escrows, id))
    && (forall id, a :: id in next.batches && id !in s.batches && a in next.batches[id].members ==>
          a in s.escrows && s.escrows[a].status == Voting)
  }

  ghost predicate Ages(batch: Batch, next: Batch, present: set<Addr>) {
    && next.members == batch.members && next.graceEndsAt == batch.graceEndsAt
    && (batch.batchPromoted ==> next.batchPromoted)
    && (next.batchPromoted && !batch.batchPromoted ==> Names(batch.members) <= present)
  }

  lemma AgingMisses(s: State, next: State, now: nat)
    requires BatchesAge(s, next) && NobodyMissing(next, now)
    ensures NobodyMissing(s, now)
  {
    hide Waiting, Names;
    forall id | id in s.batches && s.batches[id].IsReady(now) ensures Names(s.batches[id].members) <= s.escrows.Keys {
      assert Ages(s.batches[id], next.batches[id], s.escrows.Keys);
    }
  }

  /** Without an executed proposal nothing becomes promotable for a member who does not vote. */
  lemma AgingKeepsUnpromotable(s: State, next: State, now: nat, a: Addr)
    requires BatchesAge(s, next) && !HasPromotable(s, now, a) && (a in s.escrows ==> s.escrows[a].status != Voting)
    ensures !HasPromotable(next, now, a)
  {
    hide Waiting, Names, NobodyMissing;
    forall id | id in next.batches && a in next.batches[id].members ensures !Promotable(next, now, id) {
      if Promotable(next, now, id) {
        assert id in s.batches && !Promotable(s, now, id);
        assert Ages(s.batches[id], next.batches[id], s.escrows.Keys);
        if NobodyMissing(next, Max(now, next.batches[id].graceEndsAt)) {
          AgingMisses(s, next, Max(now, next.batches[id].graceEndsAt));
        }
      }
    }
  }

  /** A member who waits in vain: paid, and named by no batch that can still be promoted; or leaving; or
      gone. */
  ghost predicate InVain(s: State, now: nat, a: Addr) {
    a in s.escrows ==>
      s.escrows[a].status.Leaving? || (s.escrows[a].status.PendingPaid? && !HasPromotable(s, now, a))
  }

  lemma InVainLater(s: State, now: nat, later: nat, a: Addr)
    requires InVain(s, now, a) && now <= later
    ensures InVain(s, later, a)
  {
    hide Waiting, Names;
    if a in s.escrows && s.escrows[a].status.PendingPaid? {
      forall id | id in s.batches && a in s.batches[id].members ensures !Promotable(s, later, id) {
        assert !Promotable(s, now, id);
      }
    }
  }

  // ---------------------------------------------------------------- deposits

  /** A deposit promotes a whole batch only while nobody it names is gone. */
  lemma UpdateBatchAges(s: State, block: Block, id: nat, paid: Addr)
    requires UpdateBatchAfterEscrowPaid(s, block, id, paid).Ok?
    ensures BatchesAge(s, UpdateBatchAfterEscrowPaid(s, block, id, paid).value)
  {
    hide UpdateBatchAfterEscrowPaid;
    UpdateBatchResult(s, block, id, paid);
    UpdateBatchBatches(s, block, id, paid);
  }

  lemma UpdateBatchBatches(s: State, block: Block, id: nat, paid: Addr)
    requires UpdateBatchAfterEscrowPaid(s, block, id, paid).Ok?
    ensures
      var next := UpdateBatchAfterEscrowPaid(s, block, id, paid).value;
      && id in s.batches && id in next.batches && next.batches == s.batches[id := next.batches[id]]
      && Ages(s.batches[id], next.batches[id], s.escrows.Keys)
  {
    hide ConvertEach;
    ConvertEachBatches(s, s.batches[id].members);
    ConvertEachSucceedsIff(s, s.batches[id].members);
  }

  lemma DepositAges(s: State, block: Block, sender: Addr, amount: nat)
    requires Deposit(s, block, sender, amount).Ok?
    ensures BatchesAge(s, Deposit(s, block, sender, amount).value)
  {
    hide UpdateBatchAfterEscrowPaid, BatchesAge, TrustedCircle.GetEscrow;
    var e := s.escrows[sender].(paid := s.escrows[sender].paid + amount);
    var next := Deposit(s, block, sender, amount).value;
    if e.status.Pending? && e.paid >= s.circle.GetEscrow() {
      var id := e.status.proposalId;
      var paid := s.(escrows := s.escrows[sender := e.(status := PendingPaid(id))],
                     ledger := s.ledger.(deposited := s.ledger.deposited + amount));
      assert Deposit(s, block, sender, amount) == UpdateBatchAfterEscrowPaid(paid, block, id, sender);
      UpdateBatchAges(paid, block, id, sender);
      FewerWaitAges(s, paid, next);
    } else {
      SameBatchesAge(s, next);
    }
  }

  lemma FewerWaitAges(s: State, same: State, next: State)
    requires same.batches == s.batches && BatchesAge(same, next)
    requires same.escrows.Keys == s.escrows.Keys
    requires forall a :: a in s.escrows && same.escrows[a].status != s.escrows[a].status ==>
        same.escrows[a].status.PendingPaid?
    ensures BatchesAge(s, next)
  {
    hide Names;
  }

  lemma SameBatchesAge(s: State, next: State)
    requires next.batches == s.batches && next.escrows.Keys <= s.escrows.Keys
    requires forall a :: a in next.escrows && next.escrows[a].status.Pending? ==>
        next.escrows[a].status == s.escrows[a].status
    ensures BatchesAge(s, next)
  {
    hide Names;
  }

  lemma DepositInVain(s: State, block: Block, sender: Addr, amount: nat, a: Addr)
    requires InVain(s, block.Seconds(), a) && Deposit(s, block, sender, amount).Ok?
    ensures InVain(Deposit(s, block, sender, amount).value, block.Seconds(), a)
  {
    hide Promotes, Deposit, BatchesAge, HasPromotable;
    DepositResult(s, block, sender, amount);
    DepositAges(s, block, sender, amount);
    if a in s.escrows && s.escrows[a].status.PendingPaid? {
      AgingKeepsUnpromotable(s, Deposit(s, block, sender, amount).value, block.Seconds(), a);
      DepositPasses(s, block, sender, amount, a);
    }
  }

  lemma DepositPasses(s: State, block: Block, sender: Addr, amount: nat, a: Addr)
    requires Deposit(s, block, sender, amount).Ok?
    requires a in s.escrows && s.escrows[a].status.PendingPaid? && !HasPromotable(s, block.Seconds(), a)
    ensures a in Deposit(s, block, sender, amount).value.escrows
    ensures Deposit(s, block, sender, amount).value.escrows[a].status.PendingPaid?
  {
    hide Deposit, Names, NobodyMissing, TrustedCircle.GetEscrow;
    DepositResult(s, block, sender, amount);
    if Promotes(s, block, sender, amount) && !s.batches[s.escrows[sender].status.proposalId].batchPromoted {
      var id := s.escrows[sender].status.proposalId;
      PromotesPresent(s, block, sender, amount);
      assert sender in Waiting(s.escrows, id);
      assert Promotable(s, block.Seconds(), id);
    }
  }

  lemma PromotesPresent(s: State, block: Block, sender: Addr, amount: nat)
    requires Deposit(s, block, sender, amount).Ok? && Promotes(s, block, sender, amount)
    requires !s.batches[s.escrows[sender].status.proposalId].batchPromoted
    ensures Names(s.batches[s.escrows[sender].status.proposalId].members) <= s.escrows.Keys
  {
    hide ConvertEach, TrustedCircle.GetEscrow;
    var id := s.escrows[sender].status.proposalId;
    MeetsIff(s.circle, s.escrows[sender].paid + amount);
    var paid := s.(escrows := Deposited(s, sender, amount),
                   ledger := s.ledger.(deposited := s.ledger.deposited + amount));
    assert Deposit(s, block, sender, amount) == UpdateBatchAfterEscrowPaid(paid, block, id, sender);
    ConvertEachSucceedsIff(paid, s.batches[id].members);
  }

  // ---------------------------------------------------------------- checking, leaving, and whole runs

  /** The batch of a pending change of escrow is not stored yet. */
  lemma DueIsFresh(s: State, now: nat)
    requires Inv(s, now) && s.circle.escrowPending.Some?
    ensures s.circle.escrowPending.value.proposalId !in s.batches
  {
  }

  lemma CheckAllAges(s: State, block: Block)
    requires Inv(s, block.Seconds()) && CheckAllPending(s, block).Ok?
    ensures BatchesAge(s, CheckAllPending(s, block).value)
  {
    hide Inv, CheckAllPending, Ages;
    CheckAllPendingResult(s, block);
    CheckAllBatches(s, block);
    if s.circle.escrowPending.Some? {
      DueIsFresh(s, block.Seconds());
    }
  }

  lemma CheckAllBatches(s: State, block: Block)
    requires Inv(s, block.Seconds()) && CheckAllPending(s, block).Ok?
    ensures
      var next := CheckAllPending(s, block).value;
      && (forall id :: id in s.batches ==> id in next.batches && Ages(s.batches[id], next.batches[id], s.escrows.Keys))
      && (forall id, a :: id in next.batches && id !in s.batches && a in next.batches[id].members ==>
            a in s.escrows && s.escrows[a].status == Voting)
  {
    hide Inv, CheckPendingEscrow, ConvertBatches, Ascending, NamedIn, AfterDue, Names;
    EscrowCheckBatches(s, block);
    CheckPendingSucceedsIff(s, block);
    var middle := CheckPendingEscrow(s, block).value;
    var ready := ReadyBatches(middle.batches, block.Seconds());
    assert forall id :: id in ready <==> id in middle.batches && middle.batches[id].IsReady(block.Seconds());
    forall i | 0 <= i < |ready| ensures ready[i] in middle.batches {
      assert ready[i] in ready;
    }
    ConvertBatchesResult(middle, ready);
  }

  lemma CheckAllInVain(s: State, block: Block, a: Addr)
    requires Inv(s, block.Seconds()) && CheckAllPending(s, block).Ok? && InVain(s, block.Seconds(), a)
    ensures InVain(CheckAllPending(s, block).value, block.Seconds(), a)
  {
    hide Inv, CheckAllPending, BatchesAge, HasPromotable, ReadyNames;
    CheckAllPendingResult(s, block);
    CheckAllAges(s, block);
    if a in s.escrows && s.escrows[a].status.PendingPaid? {
      AgingKeepsUnpromotable(s, CheckAllPending(s, block).value, block.Seconds(), a);
      if ReadyNames(s, block.Seconds(), a) {
        ReadyIsPromotable(s, block, a);
      }
    }
  }

  /** A check that goes through could promote every batch that is ready. */
  lemma ReadyIsPromotable(s: State, block: Block, a: Addr)
    requires Inv(s, block.Seconds()) && CheckAllPending(s, block).Ok? && ReadyNames(s, block.Seconds(), a)
    ensures HasPromotable(s, block.Seconds(), a)
  {
    hide Inv, CheckAllPending, Names;
    CheckPendingSucceedsIff(s, block);
    var id :| id in s.batches && s.batches[id].IsReady(block.Seconds()) && a in s.batches[id].members;
    assert Promotable(s, block.Seconds(), id);
  }

  lemma ProposeInVain(s: State, block: Block, sender: Addr, content: Content, others: Others, a: Addr)
    requires Inv(s, block.Seconds()) && InVain(s, block.Seconds(), a)
    requires ProposeContent(s, block, sender, content, others).Ok?
    ensures InVain(ProposeContent(s, block, sender, content, others).value, block.Seconds(), a)
  {
    hide Inv, InVain, CheckAllPending, ValidateContent, Proposal.UpdateStatus;
    var next := ProposeContent(s, block, sender, content, others).value;
    if block.height > 0 {
      CheckAllInVain(s, block, a);
      SameMembersInVain(CheckAllPending(s, block).value, next, block.Seconds(), a);
    } else {
      SameMembersInVain(s, next, block.Seconds(), a);
    }
  }

  lemma SameMembersInVain(s: State, next: State, now: nat, a: Addr)
    requires InVain(s, now, a) && next.escrows == s.escrows && next.batches == s.batches
    ensures InVain(next, now, a)
  {
    hide BatchesAge, HasPromotable;
    SameBatchesAge(s, next);
    if a in s.escrows && s.escrows[a].status.PendingPaid? {
      AgingKeepsUnpromotable(s, next, now, a);
    }
  }

  lemma ReturnInVain(s: State, block: Block, sender: Addr, a: Addr)
    requires InVain(s, block.Seconds(), a) && Return(s, block, sender).Ok?
    ensures InVain(Return(s, block, sender).value, block.Seconds(), a)
  {
    hide TrustedCircle.GetEscrow, BatchesAge, HasPromotable;
    SameBatchesAge(s, Return(s, block, sender).value);
    if a in s.escrows && s.escrows[a].status.PendingPaid? {
      AgingKeepsUnpromotable(s, Return(s, block, sender).value, block.Seconds(), a);
    }
  }

  lemma LeaveInVain(s: State, block: Block, sender: Addr, a: Addr)
    requires InVain(s, block.Seconds(), a) && Leave(s, block, sender).Ok?
    ensures InVain(Leave(s, block, sender).value, block.Seconds(), a)
  {
    hide Leave, BatchesAge, HasPromotable;
    LeaverEntry(s, block, sender);
    SameBatchesAge(s, Leave(s, block, sender).value);
    if a in s.escrows && s.escrows[a].status.PendingPaid? {
      AgingKeepsUnpromotable(s, Leave(s, block, sender).value, block.Seconds(), a);
    }
  }

  /** Who leaves is gone, or leaving; nobody else's entry changes. */
  lemma LeaverEntry(s: State, block: Block, sender: Addr)
    requires Leave(s, block, sender).Ok?
    ensures
      var next := Leave(s, block, sender).value;
      && next.batches == s.batches && sender in s.escrows
      && (next.escrows == s.escrows - {sender}
          || (sender in next.escrows && next.escrows == s.escrows[sender := next.escrows[sender]]
              && next.escrows[sender].status.Leaving?))
  {
    hide AdjustForLeaver, OpenProposalIds;
  }

  lemma StepInVain(s: State, call: Call, a: Addr)
    requires Inv(s, call.block.Seconds()) && InVain(s, call.block.Seconds(), a) && !call.message.Execute?
    ensures InVain(Step(s, call), call.block.Seconds(), a)
  {
    hide Inv, InVain, Deposit, Return, ProposeContent, Leave, CheckAllPending, Proposal.UpdateStatus;
    if Handle(s, call).Ok? {
      match call.message
      case DepositEscrow(amount) => DepositInVain(s, call.block, call.sender, amount, a);
      case ReturnEscrow => ReturnInVain(s, call.block, call.sender, a);
      case Propose(content, others) => ProposeInVain(s, call.block, call.sender, content, others, a);
      case CastVote(_, _, _) => SameMembersInVain(s, Handle(s, call).value, call.block.Seconds(), a);
      case Close(_) => SameMembersInVain(s, Handle(s, call).value, call.block.Seconds(), a);
      case LeaveTrustedCircle => LeaveInVain(s, call.block, call.sender, a);
      case CheckPending => CheckAllInVain(s, call.block, a);
    }
  }

  predicate NothingExecuted(calls: seq<Call>) {
    forall i :: 0 <= i < |calls| ==> !calls[i].message.Execute?
  }

  /** Without an executed proposal, who waits in vain never votes. */
  lemma {:induction false} RunInVain(s: State, block: Block, calls: seq<Call>, a: Addr)
    requires Inv(s, block.Seconds()) && Ordered(block, calls) && NothingExecuted(calls) && InVain(s, block.Seconds(), a)
    ensures InVain(Run(s, calls), LastBlock(block, calls).Seconds(), a)
    decreases |calls|
  {
    hide Inv, InVain, Step;
    if calls == [] {
    } else {
      SecondsMonotone(block, calls[0].block);
      InvLater(s, block.Seconds(), calls[0].block.Seconds());
      InVainLater(s, block.Seconds(), calls[0].block.Seconds(), a);
      StepInVain(s, calls[0], a);
      StepKeeps(s, block, calls[0]);
      RunInVain(Step(s, calls[0]), calls[0].block, calls[1..], a);
    }
  }

  /** The run promotes the member. */
  ghost predicate MadeVoter(s: State, calls: seq<Call>, a: Addr) {
    var end := Run(s, calls);
    a in end.escrows && end.escrows[a].status == Voting
  }

  /** The first block by which a batch may be promoted. */
  function WhenReady(block: Block, batch: Batch): (later: Block)
    ensures block.NotAfter(later) && later.Seconds() == Max(block.Seconds(), batch.graceEndsAt)
  {
    var time := batch.graceEndsAt * NANOS_PER_SECOND;
    Block(block.height, if time > block.time then time else block.time)
  }

  /** A member who has paid can still become a voter without another executed proposal if and only if a
      batch that can still be promoted names him. */
  lemma PaidMemberVotesIff(s: State, block: Block, a: Addr)
    requires Inv(s, block.Seconds()) && a in s.escrows && s.escrows[a].status.PendingPaid?
    ensures (exists calls :: Ordered(block, calls) && NothingExecuted(calls) && MadeVoter(s, calls, a)) <==>
            HasPromotable(s, block.Seconds(), a)
  {
    hide Inv, Run, Ordered, NothingExecuted, NobodyMissing, Names;
    if exists calls :: Ordered(block, calls) && NothingExecuted(calls) && MadeVoter(s, calls, a) {
      var calls :| Ordered(block, calls) && NothingExecuted(calls) && MadeVoter(s, calls, a);
      if !HasPromotable(s, block.Seconds(), a) {
        RunInVain(s, block, calls, a);
      }
    }
    if HasPromotable(s, block.Seconds(), a) {
      var id :| id in s.batches && a in s.batches[id].members && Promotable(s, block.Seconds(), id);
      var later := WhenReady(block, s.batches[id]);
      if NobodyMissing(s, later.Seconds()) {
        CheckPromotes(s, block, later, id, a);
      } else {
        var last :| last in Waiting(s.escrows, id);
        LastDepositPromotes(s, block, later, id, a, last);
      }
    }
  }

  lemma OneCall(s: State, block: Block, call: Call)
    requires block.NotAfter(call.block)
    ensures Ordered(block, [call]) && Run(s, [call]) == Step(s, call)
  {
    hide Step;
    assert [call][1..] == [];
  }

  lemma CheckPromotes(s: State, block: Block, later: Block, id: nat, a: Addr)
    requires Inv(s, block.Seconds()) && block.NotAfter(later) && a in s.escrows && s.escrows[a].status.PendingPaid?
    requires NobodyMissing(s, later.Seconds())
    requires id in s.batches && s.batches[id].IsReady(later.Seconds()) && a in s.batches[id].members
    ensures
      var calls := [Call(later, a, CheckPending)];
      Ordered(block, calls) && NothingExecuted(calls) && MadeVoter(s, calls, a)
  {
    hide Inv, CheckAllPending, NobodyMissing, Run;
    OneCall(s, block, Call(later, a, CheckPending));
    SecondsMonotone(block, later);
    InvLater(s, block.Seconds(), later.Seconds());
    CheckPendingSucceedsIff(s, later);
    CheckAllPendingResult(s, later);
    assert ReadyNames(s, later.Seconds(), a);
  }

  /** Whoever has yet to pay in a batch promotes it by paying when its time is over, whatever other
      batches are stuck. */
  lemma LastDepositPromotes(s: State, block: Block, later: Block, id: nat, a: Addr, last: Addr)
    requires Inv(s, block.Seconds()) && block.NotAfter(later) && a in s.escrows && s.escrows[a].status.PendingPaid?
    requires id in s.batches && s.batches[id].IsReady(later.Seconds()) && a in s.batches[id].members
    requires Names(s.batches[id].members) <= s.escrows.Keys && last in Waiting(s.escrows, id)
    ensures
      var calls := [Call(later, last, DepositEscrow(s.circle.GetEscrow()))];
      Ordered(block, calls) && NothingExecuted(calls) && MadeVoter(s, calls, a)
  {
    hide Inv, Deposit, Run, TrustedCircle.GetEscrow;
    OneCall(s, block, Call(later, last, DepositEscrow(s.circle.GetEscrow())));
    CounterPositive(s, block.Seconds(), id, last);
    DeadlineInSeconds(later, s.batches[id].graceEndsAt);
    LastDepositGoesThrough(s, later, id, last);
    MeetsIff(s.circle, s.escrows[last].paid + s.circle.GetEscrow());
    DepositResult(s, later, last, s.circle.GetEscrow());
  }

  lemma CounterPositive(s: State, now: nat, id: nat, a: Addr)
    requires Inv(s, now) && id in s.batches && a in Waiting(s.escrows, id)
    ensures s.batches[id].waitingEscrow > 0 && s.circle.GetEscrow() > 0
  {
    hide Agreement, Stakes, Ids, PendingFresh, Conserved, Waiting;
    SubsetSize({a}, Waiting(s.escrows, id));
  }

  lemma LastDepositGoesThrough(s: State, block: Block, id: nat, last: Addr)
    requires id in s.batches && !s.batches[id].batchPromoted && s.batches[id].waitingEscrow > 0
    requires Names(s.batches[id].members) <= s.escrows.Keys && last in Waiting(s.escrows, id)
    requires s.circle.GetEscrow() > 0
    ensures Deposit(s, block, last, s.circle.GetEscrow()).Ok?
  {
    hide ConvertEach, TrustedCircle.GetEscrow;
    var amount := s.circle.GetEscrow();
    MeetsIff(s.circle, s.escrows[last].paid + amount);
    var paid := s.(escrows := Deposited(s, last, amount),
                   ledger := s.ledger.(deposited := s.ledger.deposited + amount));
    assert Deposit(s, block, last, amount) == UpdateBatchAfterEscrowPaid(paid, block, id, last);
    ConvertEachSucceedsIff(paid, s.batches[id].members);
    assert forall a :: a in s.batches[id].members ==> a in Names(s.batches[id].members);
  }

  /** A lowered escrow strands a member who reaches it only now, if his batch was promoted already: he
      counts as paid, but is not promoted with his batch, and no deposit of his helps. */
  lemma LoweredEscrowStrands(s: State, block: Block, a: Addr, calls: seq<Call>)
    requires Inv(s, block.Seconds()) && CheckAllPending(s, block).Ok? && EscrowDue(s, block.Seconds())
    requires s.circle.escrowPending.value.amount < s.circle.escrowAmount
    requires a in s.escrows && s.escrows[a].status.Pending? && !Named(s, a)
    requires s.escrows[a].paid >= s.circle.escrowPending.value.amount
    requires Ordered(block, calls) && NothingExecuted(calls)
    ensures
      var next := CheckAllPending(s, block).value;
      && a in next.escrows && next.escrows[a].status == PendingPaid(s.escrows[a].status.proposalId)
      && !MadeVoter(next, calls, a)
  {
    hide Inv, CheckAllPending, Run, BatchesAge, NobodyMissing;
    CheckAllPendingResult(s, block);
    CheckAllAges(s, block);
    CheckAllPendingKeeps(s, block);
    var next := CheckAllPending(s, block).value;
    AgingKeepsUnpromotable(s, next, block.Seconds(), a);
    RunInVain(next, block, calls, a);
  }
}
