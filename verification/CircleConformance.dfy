/**
 The circle does what its reference says: a message is accepted, and leaves a state, exactly where the
 reference has it so.
 */
module CircleConformance {
  import opened Base
  import opened Sums
  import opened Voting
  import opened Circle
  import opened CircleInvariant
  import opened CirclePromotion
  import opened CircleGovernance
  import opened CircleRuns
  import opened CircleEffects
  import opened CircleIndex
  import opened CircleWaiting
  import R = CircleReference

  // ---------------------------------------------------------------- common terms

  lemma CountedIffAgreement(s: State)
    ensures Agreement(s, 0) <==> R.Counted(s)
  {
    assert Voters(s.escrows) == set a | a in s.escrows && s.escrows[a].status == Voting;
  }

  lemma InvCounted(s: State, now: nat)
    requires Inv(s, now)
    ensures R.Counted(s)
  {
    CountedIffAgreement(s);
  }

  /** The counts are determined by the escrows. */
  lemma CountedUnique(s: State, t: State)
    requires R.Counted(s) && R.Counted(t) && s.escrows == t.escrows
    ensures s.members == t.members && s.total == t.total
  {
    assert s.members.Keys == t.members.Keys;
  }

  lemma SameEscrows(one: map<Addr, EscrowStatus>, other: map<Addr, EscrowStatus>)
    requires one.Keys == other.Keys && forall a :: a in one ==> one[a] == other[a]
    ensures one == other
  {
  }

  // ---------------------------------------------------------------- deposits

  lemma {:induction false} ConvertEachFrame(s: State, addrs: seq<Addr>)
    requires ConvertEach(s, addrs).Ok?
    ensures
      var next := ConvertEach(s, addrs).value.0;
      next == s.(escrows := next.escrows, members := next.members)
    decreases |addrs|
  {
    if addrs == [] {
    } else {
      ConvertEachFrame(ConvertIfPaid(s, addrs[0]).value.0, addrs[1..]);
    }
  }

  lemma UpdateBatchFrame(s: State, block: Block, id: nat, a: Addr)
    requires UpdateBatchAfterEscrowPaid(s, block, id, a).Ok?
    ensures id in s.batches
    ensures
      var next, batch := UpdateBatchAfterEscrowPaid(s, block, id, a).value, s.batches[id];
      && 0 < batch.waitingEscrow
      && next == s.(escrows := next.escrows, members := next.members, total := next.total, batches := next.batches)
      && next.batches == s.batches[id := batch.(waitingEscrow := batch.waitingEscrow - 1,
                                                batchPromoted := batch.batchPromoted || R.InTurn(s, block, id))]
  {
    hide ConvertEach;
    var batch := s.batches[id].(waitingEscrow := s.batches[id].waitingEscrow - 1);
    DeadlineInSeconds(block, batch.graceEndsAt);
    if ConvertEach(s, batch.members).Ok? {
      ConvertEachFrame(s, batch.members);
    }
  }

  /** What a deposit that completes an escrow asks of the batch. */
  lemma UpdateBatchSucceedsIff(s: State, block: Block, id: nat, a: Addr)
    requires a in s.escrows
    ensures UpdateBatchAfterEscrowPaid(s, block, id, a).Ok? <==>
      && id in s.batches && s.batches[id].waitingEscrow > 0
      && (R.InTurn(s, block, id) && !s.batches[id].batchPromoted ==>
            forall b :: b in s.batches[id].members ==> b in s.escrows)
  {
    hide ConvertEach;
    if id in s.batches {
      DeadlineInSeconds(block, s.batches[id].graceEndsAt);
      ConvertEachSucceedsIff(s, s.batches[id].members);
    }
  }

  /** The state in which a completed escrow is looked at. */
  function PaidUp(s: State, sender: Addr, amount: nat): State
    requires sender in s.escrows && s.escrows[sender].status.Pending?
  {
    var id := s.escrows[sender].status.proposalId;
    s.(escrows := s.escrows[sender := EscrowStatus(s.escrows[sender].paid + amount, PendingPaid(id))],
       ledger := s.ledger.(deposited := s.ledger.deposited + amount))
  }

  lemma DepositIsUpdate(s: State, block: Block, sender: Addr, amount: nat)
    requires sender in s.escrows && amount > 0 && R.PaysUp(s, sender, amount)
    ensures Deposit(s, block, sender, amount)
         == UpdateBatchAfterEscrowPaid(PaidUp(s, sender, amount), block, s.escrows[sender].status.proposalId, sender)
  {
    hide UpdateBatchAfterEscrowPaid;
    MeetsIff(s.circle, s.escrows[sender].paid + amount);
  }

  lemma DepositSucceedsIff(s: State, block: Block, sender: Addr, amount: nat)
    ensures Deposit(s, block, sender, amount).Ok? <==> R.DepositAccepted(s, block, sender, amount)
  {
    hide UpdateBatchAfterEscrowPaid, TrustedCircle.GetEscrow, R.Meets;
    if sender in s.escrows {
      MeetsIff(s.circle, s.escrows[sender].paid + amount);
      if amount > 0 && R.PaysUp(s, sender, amount) {
        DepositIsUpdate(s, block, sender, amount);
        UpdateBatchSucceedsIff(PaidUp(s, sender, amount), block, s.escrows[sender].status.proposalId, sender);
      }
    }
  }

  lemma DepositEntries(s: State, block: Block, sender: Addr, amount: nat)
    requires Deposit(s, block, sender, amount).Ok? && R.DepositAccepted(s, block, sender, amount)
    ensures
      var next := Deposit(s, block, sender, amount).value;
      && next.escrows.Keys == s.escrows.Keys
      && forall a :: a in s.escrows ==> next.escrows[a] == R.AfterDeposit(s, block, sender, amount, a)
  {
    hide UpdateBatchAfterEscrowPaid, TrustedCircle.GetEscrow, R.Meets;
    MeetsIff(s.circle, s.escrows[sender].paid + amount);
    if R.PaysUp(s, sender, amount) {
      var id := s.escrows[sender].status.proposalId;
      DepositIsUpdate(s, block, sender, amount);
      UpdateBatchResult(PaidUp(s, sender, amount), block, id, sender);
      DeadlineInSeconds(block, s.batches[id].graceEndsAt);
    }
  }

  lemma DepositRest(s: State, block: Block, sender: Addr, amount: nat)
    requires Deposit(s, block, sender, amount).Ok? && R.DepositAccepted(s, block, sender, amount)
    ensures
      var next := Deposit(s, block, sender, amount).value;
      && next == s.(escrows := next.escrows, members := next.members, total := next.total, batches := next.batches,
                    ledger := s.ledger.(deposited := s.ledger.deposited + amount))
      && next.batches == (if !R.PaysUp(s, sender, amount) then s.batches else
                            var id := s.escrows[sender].status.proposalId;
                            var batch := s.batches[id];
                            s.batches[id := batch.(waitingEscrow := batch.waitingEscrow - 1,
                                                   batchPromoted := batch.batchPromoted || R.InTurn(s, block, id))])
  {
    hide UpdateBatchAfterEscrowPaid, TrustedCircle.GetEscrow, R.Meets;
    MeetsIff(s.circle, s.escrows[sender].paid + amount);
    if R.PaysUp(s, sender, amount) {
      DepositIsUpdate(s, block, sender, amount);
      UpdateBatchFrame(PaidUp(s, sender, amount), block, s.escrows[sender].status.proposalId, sender);
    }
  }

  lemma DepositConforms(s: State, block: Block, sender: Addr, amount: nat)
    requires Inv(s, block.Seconds()) && Deposit(s, block, sender, amount).Ok?
    ensures R.DepositAccepted(s, block, sender, amount)
    ensures R.DepositEffect(s, block, sender, amount, Deposit(s, block, sender, amount).value)
  {
    hide Inv, Deposit, R.DepositAccepted, R.AfterDeposit, R.Counted;
    DepositSucceedsIff(s, block, sender, amount);
    DepositEntries(s, block, sender, amount);
    DepositRest(s, block, sender, amount);
    DepositKeeps(s, block, sender, amount);
    InvCounted(Deposit(s, block, sender, amount).value, block.Seconds());
  }

  lemma DepositUnique(s: State, block: Block, sender: Addr, amount: nat, one: State, other: State)
    requires R.DepositAccepted(s, block, sender, amount)
    requires R.DepositEffect(s, block, sender, amount, one) && R.DepositEffect(s, block, sender, amount, other)
    ensures one == other
  {
    hide R.DepositAccepted, R.AfterDeposit, R.PaysUp;
    SameEscrows(one.escrows, other.escrows);
    CountedUnique(one, other);
  }

  // ---------------------------------------------------------------- refunds

  lemma ReturnConforms(s: State, block: Block, sender: Addr)
    requires Inv(s, block.Seconds())
    ensures Return(s, block, sender).Ok? <==> R.ReturnAccepted(s, block, sender)
    ensures Return(s, block, sender).Ok? ==> R.ReturnEffect(s, block, sender, Return(s, block, sender).value)
  {
    hide Loose, Ids, PendingFresh, Conserved;
    if sender in s.escrows {
      MeetsIff(s.circle, s.escrows[sender].paid);
      MeetsIff(s.circle, s.circle.GetEscrow());
      assert s.circle.GetEscrow() >= ONE_TGD;
    }
  }

  lemma ReturnUnique(s: State, block: Block, sender: Addr, one: State, other: State)
    requires R.ReturnAccepted(s, block, sender)
    requires R.ReturnEffect(s, block, sender, one) && R.ReturnEffect(s, block, sender, other)
    ensures one == other
  {
  }

  // ---------------------------------------------------------------- pending changes

  lemma CheckSucceedsIff(s: State, block: Block)
    requires Inv(s, block.Seconds())
    ensures CheckAllPending(s, block).Ok? <==> R.CheckAccepted(s, block)
  {
    hide Inv, CheckAllPending;
    CheckPendingSucceedsIff(s, block);
    if R.CheckAccepted(s, block) {
      forall id | id in s.batches && s.batches[id].IsReady(block.Seconds())
        ensures Names(s.batches[id].members) <= s.escrows.Keys
      {
        assert R.BatchReady(s.batches[id], block);
      }
    }
    if NobodyMissing(s, block.Seconds()) {
      forall id, a | id in s.batches && R.BatchReady(s.batches[id], block) && a in s.batches[id].members
        ensures a in s.escrows
      {
        assert s.batches[id].IsReady(block.Seconds());
        assert a in Names(s.batches[id].members);
      }
    }
  }

  lemma NamedReadyIff(s: State, block: Block, a: Addr)
    ensures R.NamedReady(s, block, a) <==> ReadyNames(s, block.Seconds(), a)
  {
    if R.NamedReady(s, block, a) {
      var id :| id in s.batches && R.BatchReady(s.batches[id], block) && a in s.batches[id].members;
      assert s.batches[id].IsReady(block.Seconds());
    }
    if ReadyNames(s, block.Seconds(), a) {
      var id :| id in s.batches && s.batches[id].IsReady(block.Seconds()) && a in s.batches[id].members;
      assert R.BatchReady(s.batches[id], block);
    }
  }

  lemma CheckEntries(s: State, block: Block)
    requires Inv(s, block.Seconds()) && CheckAllPending(s, block).Ok?
    ensures
      var next := CheckAllPending(s, block).value;
      && next.escrows.Keys == s.escrows.Keys
      && forall a :: a in s.escrows ==> next.escrows[a] == R.AfterCheck(s, block, a)
  {
    hide Inv, CheckAllPending, R.NamedReady, ReadyNames;
    CheckAllPendingResult(s, block);
    forall a | a in s.escrows ensures CheckAllPending(s, block).value.escrows[a] == R.AfterCheck(s, block, a) {
      NamedReadyIff(s, block, a);
    }
  }

  lemma DemotedList(s: State, block: Block)
    requires R.ChangeDue(s, block) && s.circle.escrowPending.value.amount > s.circle.escrowAmount
    ensures
      var list := BelowEscrowVoters(s.escrows, s.circle.escrowPending.value.amount);
      && StrictlyAscending(list) && |list| == |R.Demoted(s, block)|
      && (forall a :: a in list <==> a in R.Demoted(s, block))
      && (list == [] <==> R.Demoted(s, block) == {})
  {
    hide Ascending;
    AscendingUnique(BelowEscrowVoters(s.escrows, s.circle.escrowPending.value.amount), Ascending(R.Demoted(s, block)));
  }

  /** What a due change of escrow writes beside the members' entries. */
  lemma EscrowCheckRest(s: State, block: Block)
    requires Inv(s, block.Seconds()) && CheckPendingEscrow(s, block).Ok?
    ensures
      var next := CheckPendingEscrow(s, block).value;
      && next == s.(escrows := next.escrows, members := next.members, total := next.total, batches := next.batches,
                    circle := next.circle)
      && next.circle == (if !R.ChangeDue(s, block) then s.circle
                         else s.circle.(escrowAmount := s.circle.escrowPending.value.amount, escrowPending := None))
      && (if R.Demoted(s, block) == {} then next.batches == s.batches
          else
            var id := s.circle.escrowPending.value.proposalId;
            var list := BelowEscrowVoters(s.escrows, s.circle.escrowPending.value.amount);
            && s.circle.escrowPending.value.amount > s.circle.escrowAmount && id !in s.batches
            && next.batches == s.batches[id := Batch(block.Seconds(), |list|, false, list)])
  {
    hide Inv, DemoteEach, PromoteEach, Ascending;
    if R.ChangeDue(s, block) {
      var p := s.circle.escrowPending.value;
      DueIsFresh(s, block.Seconds());
      DemoteEachWrites(s, p.proposalId, BelowEscrowVoters(s.escrows, p.amount));
      PromoteEachWrites(s, PaidPending(s.escrows, p.amount));
      if p.amount > s.circle.escrowAmount {
        DemotedList(s, block);
      } else {
        assert R.Demoted(s, block) == {};
      }
    } else {
      assert R.Demoted(s, block) == {};
    }
  }

  lemma {:induction false} DemoteEachWrites(s: State, id: nat, addrs: seq<Addr>)
    ensures DemoteEach(s, id, addrs).Ok? ==>
      var next := DemoteEach(s, id, addrs).value;
      next == s.(escrows := next.escrows, members := next.members, total := next.total)
    decreases |addrs|
  {
    if addrs == [] {
    } else if addrs[0] in s.escrows {
      var escrow := s.escrows[addrs[0]].(status := MemberStatus.Pending(id));
      var r := TakeVote(s.(escrows := s.escrows[addrs[0] := escrow]), addrs[0]);
      if r.Ok? {
        DemoteEachWrites(r.value, id, addrs[1..]);
      }
    }
  }

  lemma {:induction false} PromoteEachWrites(s: State, addrs: seq<Addr>)
    ensures PromoteEach(s, addrs) == s.(escrows := PromoteEach(s, addrs).escrows)
    decreases |addrs|
  {
    if addrs == [] {
    } else if addrs[0] in s.escrows && s.escrows[addrs[0]].status.Pending? {
      var e := s.escrows[addrs[0]].(status := PendingPaid(s.escrows[addrs[0]].status.proposalId));
      PromoteEachWrites(s.(escrows := s.escrows[addrs[0] := e]), addrs[1..]);
    }
  }

  lemma {:induction false} ConvertBatchesWrites(s: State, ids: seq<nat>)
    ensures ConvertBatches(s, ids).Ok? ==>
      var next := ConvertBatches(s, ids).value;
      next == s.(escrows := next.escrows, members := next.members, total := next.total, batches := next.batches)
    decreases |ids|
  {
    if ids == [] {
    } else if ids[0] in s.batches && ConvertEach(s, s.batches[ids[0]].members).Ok? {
      ConvertEachFrame(s, s.batches[ids[0]].members);
      ConvertBatchesWrites(ConvertAllPaid(s, ids[0], s.batches[ids[0]]).value, ids[1..]);
    }
  }

  lemma CheckWrites(s: State, block: Block)
    requires Inv(s, block.Seconds()) && CheckAllPending(s, block).Ok?
    ensures
      var next := CheckAllPending(s, block).value;
      next == s.(escrows := next.escrows, members := next.members, total := next.total, batches := next.batches,
                 circle := if !R.ChangeDue(s, block) then s.circle
                           else s.circle.(escrowAmount := s.circle.escrowPending.value.amount, escrowPending := None))
  {
    hide Inv, CheckPendingEscrow, ConvertBatches, Ascending, R.Demoted, BelowEscrowVoters;
    EscrowCheckRest(s, block);
    var middle := CheckPendingEscrow(s, block).value;
    ConvertBatchesWrites(middle, ReadyBatches(middle.batches, block.Seconds()));
  }

  lemma CheckBatches(s: State, block: Block)
    requires Inv(s, block.Seconds()) && CheckAllPending(s, block).Ok?
    ensures R.BatchesChecked(s, block, CheckAllPending(s, block).value.batches)
  {
    hide Inv, CheckPendingEscrow, ConvertBatches, Ascending, R.Demoted, BelowEscrowVoters, NamedIn;
    EscrowCheckRest(s, block);
    var middle := CheckPendingEscrow(s, block).value;
    var ready := ReadyBatches(middle.batches, block.Seconds());
    assert forall id :: id in ready <==> id in middle.batches && middle.batches[id].IsReady(block.Seconds());
    forall i | 0 <= i < |ready| ensures ready[i] in middle.batches {
      assert ready[i] in ready;
    }
    ConvertBatchesResult(middle, ready);
    if R.Demoted(s, block) != {} {
      ChangeIsDue(s, block);
      DemotedList(s, block);
    }
  }

  lemma ChangeIsDue(s: State, block: Block)
    requires R.Demoted(s, block) != {}
    ensures R.ChangeDue(s, block)
  {
  }

  lemma CheckConforms(s: State, block: Block)
    requires Inv(s, block.Seconds()) && CheckAllPending(s, block).Ok?
    ensures R.CheckEffect(s, block, CheckAllPending(s, block).value)
  {
    hide Inv, CheckAllPending, R.AfterCheck, R.BatchesChecked, R.Counted;
    CheckEntries(s, block);
    CheckWrites(s, block);
    CheckBatches(s, block);
    CheckAllPendingKeeps(s, block);
    InvCounted(CheckAllPending(s, block).value, block.Seconds());
  }

  lemma BatchesUnique(s: State, block: Block, one: map<nat, Batch>, other: map<nat, Batch>)
    requires R.BatchesChecked(s, block, one) && R.BatchesChecked(s, block, other)
    ensures one == other
  {
    hide R.Demoted;
    if R.Demoted(s, block) != {} {
      ChangeIsDue(s, block);
      var id := s.circle.escrowPending.value.proposalId;
      AscendingUnique(one[id].members, other[id].members);
    }
  }

  lemma CheckUnique(s: State, block: Block, one: State, other: State)
    requires R.CheckEffect(s, block, one) && R.CheckEffect(s, block, other)
    ensures one == other
  {
    hide R.AfterCheck, R.BatchesChecked;
    SameEscrows(one.escrows, other.escrows);
    BatchesUnique(s, block, one.batches, other.batches);
    CountedUnique(one, other);
  }

  // ---------------------------------------------------------------- leaving

  lemma TakesPointIff(s: State, block: Block, leaver: Addr, id: nat)
    requires id in s.proposals
    ensures R.TakesPoint(s, block, leaver, id) <==> Adjusts(s, block.Seconds(), leaver, id)
  {
    if Shadowed(s, id) {
      var other :| other in s.proposals && other > id
        && ExpirySecond(s.proposals[other]) == ExpirySecond(s.proposals[id]);
      assert s.proposals[other].expires / 1_000_000_000 == s.proposals[id].expires / 1_000_000_000;
    } else {
      forall other | other in s.proposals && other > id
        ensures s.proposals[other].expires / 1_000_000_000 != s.proposals[id].expires / 1_000_000_000
      {
        assert ExpirySecond(s.proposals[other]) != ExpirySecond(s.proposals[id]);
      }
    }
  }

  /** Whether every proposal that a leaver's point is to be taken from has one. */
  ghost predicate PointsThere(s: State, block: Block, leaver: Addr) {
    forall id :: id in s.proposals && R.TakesPoint(s, block, leaver, id) ==> s.proposals[id].totalPoints > 0
  }

  lemma PointsThereIff(s: State, block: Block, leaver: Addr)
    requires Indexed(s)
    ensures AdjustForLeaver(s.proposals, s.ballots, leaver, OpenProposalIds(s.byExpiry, block.Seconds())).Ok?
        <==> PointsThere(s, block, leaver)
  {
    hide Indexed, AdjustForLeaver, OpenProposalIds, R.TakesPoint, Adjusts;
    AdjustmentSucceedsIff(s, block.Seconds(), leaver);
    forall id | id in s.proposals
      ensures R.TakesPoint(s, block, leaver, id) <==> Adjusts(s, block.Seconds(), leaver, id)
    {
      TakesPointIff(s, block, leaver, id);
    }
  }

  lemma PointsAreTaken(s: State, block: Block, leaver: Addr)
    requires Indexed(s)
    requires AdjustForLeaver(s.proposals, s.ballots, leaver, OpenProposalIds(s.byExpiry, block.Seconds())).Ok?
    ensures R.PointsTaken(s, block, leaver,
        AdjustForLeaver(s.proposals, s.ballots, leaver, OpenProposalIds(s.byExpiry, block.Seconds())).value)
  {
    hide Indexed, AdjustForLeaver, OpenProposalIds, R.TakesPoint, Shadowed;
    var ids := OpenProposalIds(s.byExpiry, block.Seconds());
    var after := AdjustForLeaver(s.proposals, s.ballots, leaver, ids).value;
    PointsThereIff(s, block, leaver);
    AdjustForLeaverResult(s.proposals, s.ballots, leaver, ids);
    forall id | id in s.proposals
      ensures after[id] == if R.TakesPoint(s, block, leaver, id)
                           then s.proposals[id].(totalPoints := s.proposals[id].totalPoints - 1) else s.proposals[id]
    {
      ListedIff(s, block.Seconds(), id);
      TakesPointIff(s, block, leaver, id);
    }
  }

  lemma PointsTakenUnique(s: State, block: Block, leaver: Addr, one: map<nat, Proposal>, other: map<nat, Proposal>)
    requires R.PointsTaken(s, block, leaver, one) && R.PointsTaken(s, block, leaver, other)
    ensures one == other
  {
    hide R.TakesPoint;
  }

  lemma PointsTakenThere(s: State, block: Block, leaver: Addr, proposals: map<nat, Proposal>)
    requires R.PointsTaken(s, block, leaver, proposals)
    ensures PointsThere(s, block, leaver)
  {
    hide R.TakesPoint;
  }

  /** Leaving for good, of one's own or kicked out, with an escrow that may have been slashed. */
  lemma LongLeaveConforms(s: State, block: Block, open: Option<nat>, named: set<Addr>, leaver: Addr,
                          escrow: EscrowStatus)
    requires Loose(s, block.Seconds(), 0, open, named) && Indexed(s)
    requires leaver in s.escrows && escrow.status == s.escrows[leaver].status
    ensures
      var r := TriggerLongLeave(s, block, leaver, escrow);
      && (r.Ok? <==> (escrow.status == Voting ==> PointsThere(s, block, leaver)))
      && (r.Ok? ==>
            && r.value == s.(escrows := s.escrows[leaver := escrow.(status := Leaving(R.ClaimTime(s, block)))],
                             members := r.value.members, total := r.value.total, proposals := r.value.proposals)
            && (if escrow.status == Voting then R.PointsTaken(s, block, leaver, r.value.proposals)
                else r.value.proposals == s.proposals)
            && R.Counted(r.value))
  {
    hide Indexed, AdjustForLeaver, OpenProposalIds, PointsThere, R.PointsTaken, R.Counted, Stakes, BatchBounds;
    LongLeaveKeeps(s, block, open, named, leaver, escrow);
    PointsThereIff(s, block, leaver);
    var r := TriggerLongLeave(s, block, leaver, escrow);
    if escrow.status == Voting {
      VoterCounted(s, leaver);
    }
    if r.Ok? {
      CountedIffAgreement(r.value);
      if escrow.status == Voting {
        PointsAreTaken(s, block, leaver);
      }
    }
  }

  lemma LeaveConforms(s: State, block: Block, sender: Addr, next: State)
    requires Inv(s, block.Seconds()) && Indexed(s)
    ensures Leave(s, block, sender) == Ok(next) <==> R.HasLeft(s, block, sender, next)
  {
    hide Indexed, TriggerLongLeave, PointsThere, R.PointsTaken, R.Counted, Loose, Ids, PendingFresh, Checked, Conserved;
    if sender in s.escrows {
      LongLeaveConforms(s, block, None, {}, sender, s.escrows[sender]);
      if R.HasLeft(s, block, sender, next) && s.escrows[sender].status == Voting {
        PointsTakenThere(s, block, sender, next.proposals);
        PointsTakenUnique(s, block, sender, next.proposals, Leave(s, block, sender).value.proposals);
      }
      if R.HasLeft(s, block, sender, next) && Leave(s, block, sender).Ok? && sender in next.escrows {
        CountedUnique(next, Leave(s, block, sender).value);
      }
    }
  }
}
