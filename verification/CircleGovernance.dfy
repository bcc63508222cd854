/**
 Pending changes, proposing, voting and closing keep the circle's invariant.
 */
module CircleGovernance {
  import opened Base
  import opened Sums
  import opened Voting
  import opened Circle
  import opened CircleInvariant
  import opened CirclePromotion

  // ---------------------------------------------------------------- demotion and promotion by escrow

  /** No tokens move and nothing but members, escrows and the total changes. */
  ghost predicate Reshuffled(s: State, next: State) {
    SameRest(s, next) && Sum(Paid(next.escrows)) == Sum(Paid(s.escrows))
  }

  lemma DemoteOne(s: State, now: nat, id: nat, named: set<Addr>, a: Addr)
    requires Loose(s, now, 0, Some(id), named) && a in s.escrows && s.escrows[a].status == Voting
    ensures
      var escrow := s.escrows[a].(status := MemberStatus.Pending(id));
      var r := TakeVote(s.(escrows := s.escrows[a := escrow]), a);
      && r.Ok? && Loose(r.value, now, 0, Some(id), named + {a}) && Reshuffled(s, r.value)
      && r.value.escrows == s.escrows[a := escrow]
  {
    var escrow := s.escrows[a].(status := MemberStatus.Pending(id));
    TakeVoteAndPut(s, now, Some(id), named, a, escrow);
    PaidPut(s.escrows, a, escrow);
  }

  lemma {:induction false} DemoteEachKeeps(s: State, now: nat, id: nat, named: set<Addr>, addrs: seq<Addr>)
    requires Loose(s, now, 0, Some(id), named) && StrictlyAscending(addrs)
    requires forall i :: 0 <= i < |addrs| ==> addrs[i] in s.escrows && s.escrows[addrs[i]].status == Voting
    ensures
      var r := DemoteEach(s, id, addrs);
      && r.Ok? && Loose(r.value, now, 0, Some(id), named + Names(addrs)) && Reshuffled(s, r.value)
    decreases |addrs|
  {
    hide Loose, Paid;
    if addrs == [] {
      assert named + Names(addrs) == named;
    } else {
      DemoteOne(s, now, id, named, addrs[0]);
      var escrow := s.escrows[addrs[0]].(status := MemberStatus.Pending(id));
      var next := TakeVote(s.(escrows := s.escrows[addrs[0] := escrow]), addrs[0]).value;
      DemoteEachKeeps(next, now, id, named + {addrs[0]}, addrs[1..]);
      assert named + {addrs[0]} + Names(addrs[1..]) == named + Names(addrs);
    }
  }

  lemma PromoteOne(s: State, now: nat, a: Addr)
    requires Loose(s, now, 0, None, {}) && a in s.escrows && s.escrows[a].status.Pending?
    requires s.escrows[a].paid >= ONE_TGD
    ensures
      var e := s.escrows[a].(status := PendingPaid(s.escrows[a].status.proposalId));
      var next := s.(escrows := s.escrows[a := e]);
      Loose(next, now, 0, None, {}) && Reshuffled(s, next)
  {
    var e := s.escrows[a].(status := PendingPaid(s.escrows[a].status.proposalId));
    PutClosed(s, now, a, e);
    PutSamePoints(s, 0, a, e);
    PaidPut(s.escrows, a, e);
  }

  lemma {:induction false} PromoteEachKeeps(s: State, now: nat, addrs: seq<Addr>)
    requires Loose(s, now, 0, None, {}) && StrictlyAscending(addrs)
    requires forall i :: 0 <= i < |addrs| ==>
      addrs[i] in s.escrows && s.escrows[addrs[i]].status.Pending? && s.escrows[addrs[i]].paid >= ONE_TGD
    ensures Loose(PromoteEach(s, addrs), now, 0, None, {}) && Reshuffled(s, PromoteEach(s, addrs))
    decreases |addrs|
  {
    hide Loose, Paid;
    if addrs == [] {
    } else {
      PromoteOne(s, now, addrs[0]);
      var e := s.escrows[addrs[0]].(status := PendingPaid(s.escrows[addrs[0]].status.proposalId));
      PromoteEachKeeps(s.(escrows := s.escrows[addrs[0] := e]), now, addrs[1..]);
    }
  }

  /** Opening a batch that nobody waits for yet. */
  lemma OpenBatch(s: State, now: nat, id: nat)
    requires Loose(s, now, 0, None, {}) && id !in s.batches
    ensures Loose(s, now, 0, Some(id), {})
  {
    assert forall a :: a in s.escrows ==> s.escrows[a].status != MemberStatus.Pending(id);
    assert Waiting(s.escrows, id) == {};
  }

  /** A step that may add the batch of `id`, and moves no tokens. */
  ghost predicate Batched(s: State, next: State, id: nat) {
    && next == s.(escrows := next.escrows, members := next.members, total := next.total, batches := next.batches)
    && s.batches.Keys <= next.batches.Keys <= s.batches.Keys + {id}
    && Sum(Paid(next.escrows)) == Sum(Paid(s.escrows))
  }

  lemma DemoteAllKeeps(s: State, block: Block, id: nat, newAmount: nat)
    requires Loose(s, block.Seconds(), 0, None, {}) && id !in s.batches
    ensures
      var demoted := BelowEscrowVoters(s.escrows, newAmount);
      var r := DemoteEach(s, id, demoted);
      && r.Ok?
      && var stored := CreateBatch(r.value, block, id, 0, demoted);
         stored.Ok? && Loose(stored.value, block.Seconds(), 0, None, {}) && Batched(s, stored.value, id)
  {
    hide Agreement, Stakes, BatchBounds, Paid;
    var demoted := BelowEscrowVoters(s.escrows, newAmount);
    forall i | 0 <= i < |demoted| ensures demoted[i] in s.escrows && s.escrows[demoted[i]].status == Voting {
      assert demoted[i] in demoted;
    }
    OpenBatch(s, block.Seconds(), id);
    DemoteEachKeeps(s, block.Seconds(), id, {}, demoted);
    assert {} + Names(demoted) == Names(demoted);
    CreateBatchKeeps(DemoteEach(s, id, demoted).value, block, 0, id, 0, demoted);
  }

  lemma DemotePromoteKeeps(s: State, block: Block, id: nat, amount: nat, newAmount: nat)
    requires Loose(s, block.Seconds(), 0, None, {}) && id !in s.batches && newAmount >= ONE_TGD
    ensures
      var r := DemotePromote(s, block, id, amount, newAmount);
      && r.Ok? && Loose(r.value, block.Seconds(), 0, None, {}) && Batched(s, r.value, id)
  {
    hide Loose, Paid, DemoteEach, CreateBatch, BelowEscrowVoters;
    if newAmount > amount {
      DemoteAllKeeps(s, block, id, newAmount);
    } else if newAmount < amount {
      var promoted := PaidPending(s.escrows, newAmount);
      forall i | 0 <= i < |promoted|
        ensures promoted[i] in s.escrows
        ensures s.escrows[promoted[i]].status.Pending? && s.escrows[promoted[i]].paid >= ONE_TGD
      {
        assert promoted[i] in promoted;
      }
      PromoteEachKeeps(s, block.Seconds(), promoted);
    }
  }

  lemma CheckPendingEscrowKeeps(s: State, block: Block)
    requires Inv(s, block.Seconds())
    ensures CheckPendingEscrow(s, block).Ok?
    ensures Inv(CheckPendingEscrow(s, block).value, block.Seconds())
    ensures CheckPendingEscrow(s, block).value.ledger == s.ledger
  {
    hide Agreement, Stakes, BatchBounds, DemotePromote, Paid;
    if s.circle.escrowPending.Some? && block.Seconds() >= s.circle.escrowPending.value.graceEndsAt {
      var p := s.circle.escrowPending.value;
      DemotePromoteKeeps(s, block, p.proposalId, s.circle.escrowAmount, p.amount);
      var next := DemotePromote(s, block, p.proposalId, s.circle.escrowAmount, p.amount).value;
      CircleKeeps(next, s.circle.(escrowAmount := p.amount, escrowPending := None), block.Seconds());
    }
  }

  /** The counts do not look at the settings. */
  lemma CircleKeeps(s: State, circle: TrustedCircle, now: nat)
    requires Loose(s, now, 0, None, {})
    ensures Loose(s.(circle := circle), now, 0, None, {})
  {
  }

  // ---------------------------------------------------------------- promotion by timeout

  lemma {:induction false} ConvertBatchesKeeps(s: State, block: Block, ids: seq<nat>)
    requires Inv(s, block.Seconds())
    requires forall i :: 0 <= i < |ids| ==> ids[i] in s.batches && s.batches[ids[i]].graceEndsAt <= block.Seconds()
    ensures OnlyPossible(ConvertBatches(s, ids))
    ensures ConvertBatches(s, ids).Ok? ==> Inv(ConvertBatches(s, ids).value, block.Seconds())
    decreases |ids|
  {
    if ids == [] {
    } else {
      ConvertReady(s, block, ids[0]);
      var r := ConvertAllPaid(s, ids[0], s.batches[ids[0]]);
      hide Inv, ConvertAllPaid;
      if r.Ok? {
        ConvertBatchesKeeps(r.value, block, ids[1..]);
      }
    }
  }

  lemma ConvertReady(s: State, block: Block, id: nat)
    requires Inv(s, block.Seconds()) && id in s.batches && s.batches[id].graceEndsAt <= block.Seconds()
    ensures OnlyPossible(ConvertAllPaid(s, id, s.batches[id]))
    ensures
      var r := ConvertAllPaid(s, id, s.batches[id]);
      r.Ok? ==> Inv(r.value, block.Seconds())
    ensures
      var r := ConvertAllPaid(s, id, s.batches[id]);
      r.Ok? ==> r.value.batches == s.batches[id := s.batches[id].(batchPromoted := true)]
  {
    WaitingBound(s, block.Seconds(), id);
    hide Agreement, Stakes, BatchBounds, Ids, PendingFresh, ConvertAllPaid, Paid;
    ConvertAllPaidKeeps(s, block, id, s.batches[id]);
    var r := ConvertAllPaid(s, id, s.batches[id]);
    if r.Ok? {
      InvFrom(s, r.value, block.Seconds());
    }
  }

  lemma WaitingBound(s: State, now: nat, id: nat)
    requires Loose(s, now, 0, None, {}) && id in s.batches
    ensures |Waiting(s.escrows, id)| <= s.batches[id].waitingEscrow
  {
  }

  lemma CheckAllPendingKeeps(s: State, block: Block)
    requires Inv(s, block.Seconds())
    ensures OnlyPossible(CheckAllPending(s, block))
    ensures CheckAllPending(s, block).Ok? ==> Inv(CheckAllPending(s, block).value, block.Seconds())
  {
    hide Inv, CheckPendingEscrow, ConvertBatches;
    CheckPendingEscrowKeeps(s, block);
    var next := CheckPendingEscrow(s, block).value;
    var ready := ReadyBatches(next.batches, block.Seconds());
    forall i | 0 <= i < |ready|
      ensures ready[i] in next.batches && next.batches[ready[i]].graceEndsAt <= block.Seconds()
    {
      assert ready[i] in ready;
    }
    ConvertBatchesKeeps(next, block, ready);
  }

  // ---------------------------------------------------------------- proposing and voting

  /** An edit that was validated once installs only settings that are valid by themselves. */
  lemma ValidatedEditIsChecked(c: TrustedCircle, block: Block, id: nat, adj: Adjustments)
    requires c.Validate().Ok? && c.ApplyAdjustments(block, id, adj).Ok?
    requires c.ApplyAdjustments(block, id, adj).value.Validate().Ok?
    ensures AdjustmentsChecked(adj)
  {
  }

  /** Such an edit keeps any valid circle valid, though execution does not validate again. */
  lemma CheckedEditKeepsValid(c: TrustedCircle, block: Block, id: nat, adj: Adjustments)
    requires c.Validate().Ok? && AdjustmentsChecked(adj) && c.ApplyAdjustments(block, id, adj).Ok?
    ensures c.ApplyAdjustments(block, id, adj).value.Validate().Ok?
  {
  }

  lemma {:induction false} ValidatedPunishmentsAreChecked(s: State, ps: seq<Punishment>)
    requires ValidatePunishments(s, ps).Ok?
    ensures forall i :: 0 <= i < |ps| ==> PunishmentChecked(ps[i])
    decreases |ps|
  {
    if ps == [] {
    } else {
      ValidatedPunishmentsAreChecked(s, ps[1..]);
      forall i | 0 <= i < |ps| ensures PunishmentChecked(ps[i]) {
        if i > 0 {
          assert ps[i] == ps[1..][i - 1];
        }
      }
    }
  }

  lemma ValidatedContentIsChecked(s: State, block: Block, content: Content, others: Others)
    requires s.circle.Validate().Ok? && ValidateContent(s, block, content, others).Ok?
    ensures ContentChecked(content)
  {
    match content
    case EditTrustedCircle(adj) => ValidatedEditIsChecked(s.circle, block, DUMMY_PROPOSAL_ID, adj);
    case PunishMembers(ps) => ValidatedPunishmentsAreChecked(s, ps);
    case AddRemoveNonVotingMembers(_, _) =>
    case AddVotingMembers(_) =>
    case WhitelistContract(_) =>
    case RemoveContract(_) =>
  }

  /** The circle's tally predicate is the quorum threshold's, early only if the rules allow it. */
  lemma ProposalTally(p: Proposal, block: Block)
    requires Within(p.votes, p.totalPoints)
    ensures p.IsPassed(block) ==
      Ok((p.IsExpired(block) || p.rules.allowEndEarly)
         && IsPassed(ThresholdQuorum(p.rules.threshold, p.rules.quorum), p.totalPoints, p.votes, p.IsExpired(block)))
  {
  }

  /** Before it expires a proposal counts as passed exactly if it may end early and every
      completion of the tally passes at expiry. */
  lemma ProposalPassesEarlyIff(p: Proposal, block: Block)
    requires Within(p.votes, p.totalPoints) && p.rules.Validate().Ok? && !p.IsExpired(block)
    ensures p.IsPassed(block).Ok?
    ensures p.IsPassed(block).value <==>
      p.rules.allowEndEarly && SureToPass(ThresholdQuorum(p.rules.threshold, p.rules.quorum), p.totalPoints, p.votes)
  {
    ProposalTally(p, block);
    PassedIffSureToPass(ThresholdQuorum(p.rules.threshold, p.rules.quorum), p.totalPoints, p.votes);
  }

  /** Writing a proposal that no batch and no pending escrow refers to. */
  lemma WriteProposal(s: State, now: nat, id: nat, p: Proposal, next: State)
    requires Inv(s, now) && ContentChecked(p.content)
    requires 1 <= id <= next.proposalCount && s.proposalCount <= next.proposalCount
    requires id in s.proposals ==> s.proposals[id].status != Executed
    requires next == s.(proposals := s.proposals[id := p], proposalCount := next.proposalCount,
                        byExpiry := next.byExpiry, ballots := next.ballots)
    ensures Inv(next, now)
  {
  }

  lemma ProposeKeeps(s: State, block: Block, sender: Addr, content: Content, others: Others)
    requires Inv(s, block.Seconds())
    ensures OnlyPossible(ProposeContent(s, block, sender, content, others))
    ensures ProposeContent(s, block, sender, content, others).Ok? ==>
        Inv(ProposeContent(s, block, sender, content, others).value, block.Seconds())
  {
    CheckAllPendingKeeps(s, block);
    ProposedKeeps(s, block, sender, content, others);
    ContentErrors(s, block, sender, content, others);
  }

  lemma ContentErrors(s: State, block: Block, sender: Addr, content: Content, others: Others)
    requires OnlyPossible(CheckAllPending(s, block))
    ensures OnlyPossible(ProposeContent(s, block, sender, content, others))
  {
    hide CheckAllPending, ValidateContent, VotesNeeded;
    var checked := if block.height > 0 then CheckAllPending(s, block) else Ok(s);
    if checked.Ok? {
      ContentErrorPossible(checked.value, block, content, others);
    }
  }

  lemma ContentErrorPossible(s: State, block: Block, content: Content, others: Others)
    ensures OnlyPossible(ValidateContent(s, block, content, others))
  {
    hide IsBlank, Utf8Length;
    PunishmentErrors(s, content);
  }

  lemma PunishmentErrors(s: State, content: Content)
    ensures content.PunishMembers? ==> OnlyPossible(ValidatePunishments(s, content.punishments))
  {
    if content.PunishMembers? {
      EachPunishmentError(s, content.punishments);
    }
  }

  lemma {:induction false} EachPunishmentError(s: State, ps: seq<Punishment>)
    ensures OnlyPossible(ValidatePunishments(s, ps))
    decreases |ps|
  {
    if ps == [] {
    } else {
      EachPunishmentError(s, ps[1..]);
    }
  }

  lemma ProposedKeeps(s: State, block: Block, sender: Addr, content: Content, others: Others)
    requires Inv(s, block.Seconds())
    requires CheckAllPending(s, block).Ok? ==> Inv(CheckAllPending(s, block).value, block.Seconds())
    ensures ProposeContent(s, block, sender, content, others).Ok? ==>
        Inv(ProposeContent(s, block, sender, content, others).value, block.Seconds())
  {
    hide Loose, CheckAllPending, ValidateContent, ContentChecked, PendingFresh, Conserved, VotesNeeded;
    var r := ProposeContent(s, block, sender, content, others);
    if r.Ok? {
      var checked := if block.height > 0 then CheckAllPending(s, block).value else s;
      ValidatedContentIsChecked(checked, block, content, others);
      var id := checked.proposalCount + 1;
      WriteProposal(checked, block.Seconds(), id, r.value.proposals[id], r.value);
    }
  }

  lemma VoteKeeps(s: State, block: Block, sender: Addr, id: nat, vote: Vote, power: nat)
    requires Inv(s, block.Seconds())
    ensures OnlyPossible(VoteOn(s, block, sender, id, vote, power))
    ensures VoteOn(s, block, sender, id, vote, power).Ok? ==>
        Inv(VoteOn(s, block, sender, id, vote, power).value, block.Seconds())
  {
    hide Loose, PendingFresh, Conserved, ContentChecked, VotesNeeded;
    var r := VoteOn(s, block, sender, id, vote, power);
    if r.Ok? {
      WriteProposal(s, block.Seconds(), id, r.value.proposals[id], r.value);
    }
  }

  lemma CloseKeeps(s: State, block: Block, id: nat)
    requires Inv(s, block.Seconds())
    ensures OnlyPossible(CloseProposal(s, block, id))
    ensures CloseProposal(s, block, id).Ok? ==> Inv(CloseProposal(s, block, id).value, block.Seconds())
  {
    hide Loose, PendingFresh, Conserved, ContentChecked;
    var r := CloseProposal(s, block, id);
    if r.Ok? {
      WriteProposal(s, block.Seconds(), id, r.value.proposals[id], r.value);
    }
  }
}
