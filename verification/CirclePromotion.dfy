/**
 Promotion, escrow and leaving keep the circle's invariant.
 */
module CirclePromotion {
  import opened Base
  import opened Sums
  import opened Voting
  import opened Circle
  import opened CircleInvariant
  import R = CircleReference

  /** Errors the code guards against that no run of the contract can meet. */
  predicate Impossible(e: Error) {
    e in {AlreadyUsedProposal, MissingBatch, WaitingUnderflow, TotalUnderflow, SlashUnderflow, DivisionByZero}
  }

  ghost predicate OnlyPossible<T>(r: Result<T, Error>) {
    r.Err? ==> !Impossible(r.error)
  }

  // ---------------------------------------------------------------- promotion

  lemma ConvertIfPaidKeeps(s: State, now: nat, lag: int, open: Option<nat>, named: set<Addr>, a: Addr)
    requires Loose(s, now, lag, open, named)
    ensures
      var r := ConvertIfPaid(s, a);
      && OnlyPossible(r)
      && (r.Ok? ==>
            && Loose(r.value.0, now, lag + (if r.value.1 then VOTING_POINTS else 0), open, named)
            && SameRest(s, r.value.0) && r.value.0.total == s.total
            && Sum(Paid(r.value.0.escrows)) == Sum(Paid(s.escrows)))
  {
    if a in s.escrows && s.escrows[a].status.PendingPaid? {
      var e := s.escrows[a].(status := Voting);
      PutKeeps(s, now, lag, open, named, a, e);
      PaidPut(s.escrows, a, e);
    }
  }

  lemma {:induction false} ConvertEachKeeps(s: State, now: nat, lag: int, open: Option<nat>, named: set<Addr>,
                                            addrs: seq<Addr>)
    requires Loose(s, now, lag, open, named)
    ensures
      var r := ConvertEach(s, addrs);
      && OnlyPossible(r)
      && (r.Ok? ==>
            && Loose(r.value.0, now, lag + r.value.1, open, named)
            && SameRest(s, r.value.0) && r.value.0.total == s.total
            && Sum(Paid(r.value.0.escrows)) == Sum(Paid(s.escrows)))
    decreases |addrs|
  {
    if addrs == [] {
    } else {
      ConvertIfPaidKeeps(s, now, lag, open, named, addrs[0]);
      var r := ConvertIfPaid(s, addrs[0]);
      if r.Ok? {
        ConvertEachKeeps(r.value.0, now, lag + (if r.value.1 then VOTING_POINTS else 0), open, named, addrs[1..]);
      }
    }
  }

  /** A batch may be stored as promoted once nobody has to pay or its grace period is over. */
  lemma ConvertAllPaidKeeps(s: State, block: Block, id: nat, batch: Batch)
    requires Loose(s, block.Seconds(), 0, None, {})
    requires id in s.batches && |Waiting(s.escrows, id)| <= batch.waitingEscrow
    requires batch.waitingEscrow == 0 || batch.graceEndsAt <= block.Seconds()
    ensures
      var r := ConvertAllPaid(s, id, batch);
      && OnlyPossible(r)
      && (r.Ok? ==>
            && Loose(r.value, block.Seconds(), 0, None, {})
            && r.value == s.(escrows := r.value.escrows, members := r.value.members, total := r.value.total,
                             batches := s.batches[id := batch.(batchPromoted := true)])
            && Sum(Paid(r.value.escrows)) == Sum(Paid(s.escrows)))
  {
    ConvertEachKeeps(s, block.Seconds(), 0, None, {}, batch.members);
    ConvertEachWaiting(s, batch.members, id);
  }

  /** Promotion leaves the pending members alone. */
  lemma {:induction false} ConvertEachWaiting(s: State, addrs: seq<Addr>, id: nat)
    ensures ConvertEach(s, addrs).Ok? ==> Waiting(ConvertEach(s, addrs).value.0.escrows, id) == Waiting(s.escrows, id)
    decreases |addrs|
  {
    if addrs == [] {
    } else {
      var r := ConvertIfPaid(s, addrs[0]);
      if r.Ok? {
        if addrs[0] in s.escrows && s.escrows[addrs[0]].status.PendingPaid? {
          WaitingPut(s.escrows, addrs[0], s.escrows[addrs[0]].(status := Voting), id);
        }
        ConvertEachWaiting(r.value.0, addrs[1..], id);
      }
    }
  }

  /** Promotion fails only for a member of the list who has left: the exact condition. */
  lemma {:induction false} ConvertEachSucceedsIff(s: State, addrs: seq<Addr>)
    ensures ConvertEach(s, addrs).Ok? <==> forall a :: a in addrs ==> a in s.escrows
    decreases |addrs|
  {
    if addrs == [] {
    } else {
      assert forall a :: a in addrs <==> a == addrs[0] || a in addrs[1..];
      var r := ConvertIfPaid(s, addrs[0]);
      if r.Ok? {
        assert r.value.0.escrows.Keys == s.escrows.Keys;
        ConvertEachSucceedsIff(r.value.0, addrs[1..]);
      }
    }
  }

  /** What promotion does, whatever the order of the list: exactly its paid members vote. */
  lemma {:induction false} ConvertEachResult(s: State, addrs: seq<Addr>)
    requires ConvertEach(s, addrs).Ok?
    ensures
      var escrows := ConvertEach(s, addrs).value.0.escrows;
      && escrows.Keys == s.escrows.Keys
      && forall a :: a in s.escrows ==>
           escrows[a] == if a in addrs && s.escrows[a].status.PendingPaid?
                         then s.escrows[a].(status := Voting) else s.escrows[a]
    decreases |addrs|
  {
    if addrs == [] {
    } else {
      assert forall a :: a in addrs <==> a == addrs[0] || a in addrs[1..];
      var next := ConvertIfPaid(s, addrs[0]).value.0;
      ConvertEachResult(next, addrs[1..]);
      assert next.escrows.Keys == s.escrows.Keys;
    }
  }

  // ---------------------------------------------------------------- deposits

  /** The required escrow is the larger of the two amounts. */
  lemma MeetsIff(c: TrustedCircle, paid: nat)
    ensures R.Meets(c, paid) <==> paid >= c.GetEscrow()
  {
  }

  /** The member who just paid leaves the waiting members of the batch; the counter follows. */
  lemma PaidLeavesWaiting(s: State, block: Block, sender: Addr, e: EscrowStatus, id: nat)
    requires Loose(s, block.Seconds(), 0, None, {}) && StakeOk(e) && e.status == MemberStatus.PendingPaid(id)
    requires sender in s.escrows && s.escrows[sender].status == MemberStatus.Pending(id)
    ensures
      var next := Put(s, sender, e);
      && next == s.(escrows := s.escrows[sender := e])
      && Loose(next, block.Seconds(), 0, None, {})
      && id in s.batches && 1 <= s.batches[id].waitingEscrow
      && |Waiting(next.escrows, id)| <= s.batches[id].waitingEscrow - 1
  {
    PutClosed(s, block.Seconds(), sender, e);
    PutSamePoints(s, 0, sender, e);
    WaitingPut(s.escrows, sender, e, id);
    assert sender in Waiting(s.escrows, id);
    assert |Waiting(s.escrows, id) - {sender}| == |Waiting(s.escrows, id)| - 1;
  }

  /** A promotion step changes members, escrows, total and batches only, and no tokens move. */
  ghost predicate Promoted(s: State, next: State) {
    && next == s.(escrows := next.escrows, members := next.members, total := next.total, batches := next.batches)
    && next.batches.Keys == s.batches.Keys
    && Sum(Paid(next.escrows)) == Sum(Paid(s.escrows))
  }

  lemma CounterDown(s: State, now: nat, id: nat)
    requires Loose(s, now, 0, None, {})
    requires id in s.batches && |Waiting(s.escrows, id)| <= s.batches[id].waitingEscrow - 1
    ensures
      var batch := s.batches[id].(waitingEscrow := s.batches[id].waitingEscrow - 1);
      Loose(s.(batches := s.batches[id := batch]), now, 0, None, {})
  {
  }

  lemma UpdateBatchKeeps(s: State, block: Block, id: nat, a: Addr)
    requires Loose(s, block.Seconds(), 0, None, {})
    requires id in s.batches && |Waiting(s.escrows, id)| <= s.batches[id].waitingEscrow - 1
    ensures
      var r := UpdateBatchAfterEscrowPaid(s, block, id, a);
      && OnlyPossible(r)
      && (r.Ok? ==> Loose(r.value, block.Seconds(), 0, None, {}) && Promoted(s, r.value))
  {
    hide Agreement, Stakes, BatchBounds, ConvertIfPaid, ConvertAllPaid;
    var batch := s.batches[id].(waitingEscrow := s.batches[id].waitingEscrow - 1);
    CounterDown(s, block.Seconds(), id);
    DeadlineInSeconds(block, batch.graceEndsAt);
    if batch.CanPromote(block) {
      if batch.batchPromoted {
        var saved := s.(batches := s.batches[id := batch]);
        ConvertIfPaidKeeps(saved, block.Seconds(), 0, None, {}, a);
        if ConvertIfPaid(saved, a).Ok? {
          LateVoterKeeps(saved, block, a);
        }
      } else {
        ConvertAllPaidKeeps(s, block, id, batch);
      }
    }
  }

  /** One member promoted after the rest of the batch: the total follows at once. */
  lemma LateVoterKeeps(s: State, block: Block, a: Addr)
    requires Loose(s, block.Seconds(), 0, None, {}) && ConvertIfPaid(s, a).Ok?
    ensures
      var (next, converted) := ConvertIfPaid(s, a).value;
      var counted := if converted then next.(total := next.total + VOTING_POINTS) else next;
      Loose(counted, block.Seconds(), 0, None, {}) && Promoted(s, counted)
  {
    hide Loose, ConvertIfPaid, Paid;
    ConvertIfPaidKeeps(s, block.Seconds(), 0, None, {}, a);
    var (next, converted) := ConvertIfPaid(s, a).value;
    if converted {
      TotalCatchesUp(next, block.Seconds(), VOTING_POINTS);
    }
  }

  lemma TotalCatchesUp(s: State, now: nat, lag: nat)
    requires Loose(s, now, lag, None, {})
    ensures Loose(s.(total := s.total + lag), now, 0, None, {})
  {
  }

  lemma DepositKeeps(s: State, block: Block, sender: Addr, amount: nat)
    requires Inv(s, block.Seconds())
    ensures
      var r := Deposit(s, block, sender, amount);
      OnlyPossible(r) && (r.Ok? ==> Inv(r.value, block.Seconds()))
  {
    hide Inv, UpdateBatchAfterEscrowPaid;
    if sender in s.escrows && amount > 0 {
      var escrow := s.escrows[sender].(paid := s.escrows[sender].paid + amount);
      if escrow.status.Pending? && escrow.paid >= s.circle.GetEscrow() {
        DepositPays(s, block, sender, amount);
      } else if escrow.status.Pending? || escrow.status.PendingPaid? || escrow.status == Voting {
        DepositAdds(s, block, sender, amount);
      }
    }
  }

  /** The invariant after a step that keeps proposals and settings. */
  lemma InvFrom(s: State, next: State, now: nat)
    requires Inv(s, now) && Loose(next, now, 0, None, {}) && Conserved(next)
    requires SameProposals(s.proposals, next.proposals)
    requires next.batches.Keys == s.batches.Keys && next.circle == s.circle && next.proposalCount == s.proposalCount
    ensures Inv(next, now)
  {
  }

  lemma DepositAdds(s: State, block: Block, sender: Addr, amount: nat)
    requires Inv(s, block.Seconds()) && sender in s.escrows
    requires s.escrows[sender].status != NonVoting
    ensures
      var e := s.escrows[sender].(paid := s.escrows[sender].paid + amount);
      var ledger := s.ledger.(deposited := s.ledger.deposited + amount);
      Inv(s.(escrows := s.escrows[sender := e], ledger := ledger), block.Seconds())
  {
    hide Agreement, BatchBounds, Ids, PendingFresh, Checked;
    var e := s.escrows[sender].(paid := s.escrows[sender].paid + amount);
    PutClosed(s, block.Seconds(), sender, e);
    PutSamePoints(s, 0, sender, e);
    PaidPut(s.escrows, sender, e);
    var ledger := s.ledger.(deposited := s.ledger.deposited + amount);
    LedgerKeeps(Put(s, sender, e), ledger, block.Seconds(), None, {});
    InvFrom(s, s.(escrows := s.escrows[sender := e], ledger := ledger), block.Seconds());
  }

  /** The counts do not look at the ledger. */
  lemma LedgerKeeps(s: State, ledger: Ledger, now: nat, open: Option<nat>, named: set<Addr>)
    requires Loose(s, now, 0, open, named)
    ensures Loose(s.(ledger := ledger), now, 0, open, named)
  {
  }

  lemma DepositPays(s: State, block: Block, sender: Addr, amount: nat)
    requires Inv(s, block.Seconds()) && sender in s.escrows && amount > 0
    requires s.escrows[sender].status.Pending? && s.escrows[sender].paid + amount >= s.circle.GetEscrow()
    ensures
      var r := Deposit(s, block, sender, amount);
      OnlyPossible(r) && (r.Ok? ==> Inv(r.value, block.Seconds()))
  {
    hide Agreement, Stakes, BatchBounds, Ids, PendingFresh, UpdateBatchAfterEscrowPaid;
    var id := s.escrows[sender].status.proposalId;
    var e := EscrowStatus(s.escrows[sender].paid + amount, PendingPaid(id));
    var ledger := s.ledger.(deposited := s.ledger.deposited + amount);
    PaidPut(s.escrows, sender, e);
    PaidLeavesWaiting(s, block, sender, e, id);
    LedgerKeeps(Put(s, sender, e), ledger, block.Seconds(), None, {});
    var paid := s.(escrows := s.escrows[sender := e], ledger := ledger);
    UpdateBatchKeeps(paid, block, id, sender);
    var r := UpdateBatchAfterEscrowPaid(paid, block, id, sender);
    assert Deposit(s, block, sender, amount) == r;
    if r.Ok? {
      InvFrom(s, r.value, block.Seconds());
    }
  }

  // ---------------------------------------------------------------- refunds

  /** A voter can take back what exceeds both escrow amounts, down to the larger one and not to less than a
      token: so a refund never removes a voter. */
  lemma VoterKeepsStake(s: State, block: Block, sender: Addr)
    requires Inv(s, block.Seconds()) && sender in s.escrows && s.escrows[sender].status == Voting
    ensures
      var r := Return(s, block, sender);
      && (r.Ok? <==> R.Meets(s.circle, s.escrows[sender].paid))
      && (r.Ok? ==> sender in r.value.escrows && r.value.escrows[sender].status == Voting)
      && (r.Ok? ==>
            var kept := r.value.escrows[sender].paid;
            && R.Meets(s.circle, kept) && 1_000_000 <= kept <= s.escrows[sender].paid
            && (kept == s.circle.escrowAmount
                || (s.circle.escrowPending.Some? && kept == s.circle.escrowPending.value.amount)))
  {
    hide Agreement, BatchBounds, Ids, PendingFresh, Conserved;
  }

  lemma ReturnKeeps(s: State, block: Block, sender: Addr)
    requires Inv(s, block.Seconds())
    ensures
      var r := Return(s, block, sender);
      OnlyPossible(r) && (r.Ok? ==> Inv(r.value, block.Seconds()))
  {
    hide Inv;
    var r := Refund(s, block, sender);
    if r.Ok? && r.value > 0 {
      RefundIsCovered(s, block, sender);
      if r.value == s.escrows[sender].paid {
        RefundAll(s, block, sender);
      } else {
        RefundPart(s, block, sender, r.value);
      }
    }
  }

  /** A refund leaves a voting member at least a token, and takes all only from a leaving one. */
  lemma RefundIsCovered(s: State, block: Block, sender: Addr)
    requires Inv(s, block.Seconds()) && Refund(s, block, sender).Ok?
    ensures
      var refund := Refund(s, block, sender).value;
      && sender in s.escrows && refund <= s.escrows[sender].paid
      && StakeOk(s.escrows[sender].(paid := s.escrows[sender].paid - refund))
      && (refund == s.escrows[sender].paid ==> s.escrows[sender].status != Voting)
  {
  }

  lemma RefundAll(s: State, block: Block, sender: Addr)
    requires Inv(s, block.Seconds()) && sender in s.escrows && s.escrows[sender].status != Voting
    ensures
      var ledger := s.ledger.(refunded := s.ledger.refunded + s.escrows[sender].paid);
      Inv(s.(escrows := s.escrows - {sender}, members := s.members - {sender}, ledger := ledger), block.Seconds())
  {
    var ledger := s.ledger.(refunded := s.ledger.refunded + s.escrows[sender].paid);
    RemoveKeeps(s, block.Seconds(), 0, None, {}, sender);
    PaidRemove(s.escrows, sender);
    var next := s.(escrows := s.escrows - {sender}, members := s.members - {sender});
    LedgerKeeps(next, ledger, block.Seconds(), None, {});
    InvFrom(s, next.(ledger := ledger), block.Seconds());
  }

  lemma RefundPart(s: State, block: Block, sender: Addr, refund: nat)
    requires Inv(s, block.Seconds()) && sender in s.escrows && refund <= s.escrows[sender].paid
    requires StakeOk(s.escrows[sender].(paid := s.escrows[sender].paid - refund))
    ensures
      var e := s.escrows[sender].(paid := s.escrows[sender].paid - refund);
      var ledger := s.ledger.(refunded := s.ledger.refunded + refund);
      Inv(s.(escrows := s.escrows[sender := e], ledger := ledger), block.Seconds())
  {
    var e := s.escrows[sender].(paid := s.escrows[sender].paid - refund);
    var ledger := s.ledger.(refunded := s.ledger.refunded + refund);
    PutClosed(s, block.Seconds(), sender, e);
    PutSamePoints(s, 0, sender, e);
    PaidPut(s.escrows, sender, e);
    LedgerKeeps(Put(s, sender, e), ledger, block.Seconds(), None, {});
    InvFrom(s, s.(escrows := s.escrows[sender := e], ledger := ledger), block.Seconds());
  }

  // ---------------------------------------------------------------- leaving

  lemma {:induction false} AdjustKeepsProposals(proposals: map<nat, Proposal>, ballots: map<(nat, Addr), Ballot>,
                                                leaver: Addr, ids: seq<nat>)
    ensures
      var r := AdjustForLeaver(proposals, ballots, leaver, ids);
      OnlyPossible(r) && (r.Ok? ==> SameProposals(proposals, r.value))
    decreases |ids|
  {
    if ids == [] {
    } else {
      if (ids[0], leaver) in ballots || (ids[0] in proposals && proposals[ids[0]].status != Open) {
        AdjustKeepsProposals(proposals, ballots, leaver, ids[1..]);
      } else if ids[0] in proposals && proposals[ids[0]].totalPoints >= VOTING_POINTS {
        var adjusted := proposals[ids[0]].(totalPoints := proposals[ids[0]].totalPoints - VOTING_POINTS);
        AdjustKeepsProposals(proposals[ids[0] := adjusted], ballots, leaver, ids[1..]);
      }
    }
  }

  /** A voter whose new status has no points is taken out of the count and the total together. */
  lemma TakeVoteAndPut(s: State, now: nat, open: Option<nat>, named: set<Addr>, a: Addr, e: EscrowStatus)
    requires Loose(s, now, 0, open, named) && StakeOk(e) && e.status != Voting
    requires a in s.escrows && s.escrows[a].status == Voting
    requires e.status.Pending? ==> open == Some(e.status.proposalId)
    ensures
      var r := TakeVote(s, a);
      && r.Ok?
      && Loose(r.value.(escrows := s.escrows[a := e]), now, 0, open, if e.status.Pending? then named + {a} else named)
      && r.value == s.(members := r.value.members, total := r.value.total)
      && r.value.(escrows := s.escrows[a := e]) == Put(s, a, e).(total := s.total - VOTING_POINTS)
  {
    VoterCounted(s, a);
    PutKeeps(s, now, 0, open, named, a, e);
  }

  lemma LongLeaveKeeps(s: State, block: Block, open: Option<nat>, named: set<Addr>, leaver: Addr, escrow: EscrowStatus)
    requires Loose(s, block.Seconds(), 0, open, named)
    requires leaver in s.escrows && escrow.status == s.escrows[leaver].status
    ensures
      var r := TriggerLongLeave(s, block, leaver, escrow);
      && OnlyPossible(r)
      && (r.Ok? ==>
            && Loose(r.value, block.Seconds(), 0, open, named)
            && r.value == s.(escrows := r.value.escrows, members := r.value.members, total := r.value.total,
                             proposals := r.value.proposals)
            && SameProposals(s.proposals, r.value.proposals)
            && r.value.escrows.Keys == s.escrows.Keys
            && Sum(Paid(r.value.escrows)) == Sum(Paid(s.escrows)) - s.escrows[leaver].paid + escrow.paid)
  {
    hide Loose, TakeVote, AdjustForLeaver, OpenProposalIds, Paid;
    var left := escrow.(status := Leaving(block.Seconds() + s.circle.rules.PeriodSeconds() * 2));
    PaidPut(s.escrows, leaver, left);
    if escrow.status == Voting {
      VoterLeaves(s, block, open, named, leaver, left);
    } else {
      OtherLeaves(s, block, open, named, leaver, left);
    }
  }

  lemma OtherLeaves(s: State, block: Block, open: Option<nat>, named: set<Addr>, leaver: Addr, left: EscrowStatus)
    requires Loose(s, block.Seconds(), 0, open, named)
    requires leaver in s.escrows && s.escrows[leaver].status != Voting && left.status.Leaving?
    ensures Loose(s.(escrows := s.escrows[leaver := left]), block.Seconds(), 0, open, named)
  {
    PutKeeps(s, block.Seconds(), 0, open, named, leaver, left);
    PutSamePoints(s, 0, leaver, left);
  }

  lemma VoterLeaves(s: State, block: Block, open: Option<nat>, named: set<Addr>, leaver: Addr, left: EscrowStatus)
    requires Loose(s, block.Seconds(), 0, open, named)
    requires leaver in s.escrows && s.escrows[leaver].status == Voting && left.status.Leaving?
    ensures
      var taken := TakeVote(s, leaver);
      var adjusted := AdjustForLeaver(s.proposals, s.ballots, leaver, OpenProposalIds(s.byExpiry, block.Seconds()));
      && taken.Ok? && OnlyPossible(adjusted)
      && (adjusted.Ok? ==>
            var next := taken.value.(proposals := adjusted.value, escrows := s.escrows[leaver := left]);
            Loose(next, block.Seconds(), 0, open, named) && SameProposals(s.proposals, adjusted.value)
            && next == s.(escrows := next.escrows, members := next.members, total := next.total,
                proposals := next.proposals))
  {
    TakeVoteAndPut(s, block.Seconds(), open, named, leaver, left);
    var ids := OpenProposalIds(s.byExpiry, block.Seconds());
    AdjustKeepsProposals(s.proposals, s.ballots, leaver, ids);
    var adjusted := AdjustForLeaver(s.proposals, s.ballots, leaver, ids);
    if adjusted.Ok? {
      var taken := TakeVote(s, leaver).value.(escrows := s.escrows[leaver := left]);
      ProposalsKeep(taken, adjusted.value, block.Seconds(), open, named);
    }
  }

  /** The counts do not look at the proposals. */
  lemma ProposalsKeep(s: State, proposals: map<nat, Proposal>, now: nat, open: Option<nat>, named: set<Addr>)
    requires Loose(s, now, 0, open, named)
    ensures Loose(s.(proposals := proposals), now, 0, open, named)
  {
  }

  lemma LeaveKeeps(s: State, block: Block, sender: Addr)
    requires Inv(s, block.Seconds())
    ensures
      var r := Leave(s, block, sender);
      OnlyPossible(r) && (r.Ok? ==> Inv(r.value, block.Seconds()))
  {
    if sender in s.escrows {
      var escrow := s.escrows[sender];
      if escrow.status.NonVoting? || (escrow.status.Pending? && escrow.paid == 0) {
        LeaveAtOnce(s, block, sender);
      } else if !escrow.status.Leaving? {
        LongLeaveKeeps(s, block, None, {}, sender, escrow);
        var r := TriggerLongLeave(s, block, sender, escrow);
        if r.Ok? {
          InvFrom(s, r.value, block.Seconds());
        }
      }
    }
  }

  lemma LeaveAtOnce(s: State, block: Block, sender: Addr)
    requires Inv(s, block.Seconds()) && sender in s.escrows
    requires s.escrows[sender].paid == 0 && s.escrows[sender].status != Voting
    ensures Inv(s.(members := s.members - {sender}, escrows := s.escrows - {sender}), block.Seconds())
  {
    RemoveKeeps(s, block.Seconds(), 0, None, {}, sender);
    PaidRemove(s.escrows, sender);
    InvFrom(s, s.(members := s.members - {sender}, escrows := s.escrows - {sender}), block.Seconds());
  }
}
