/**
 Runs of a small circle that show where the code falls short of its text.
 */
module CircleExamples {
  import opened Base
  import opened Sums
  import opened Voting
  import opened Circle
  import opened CircleInvariant
  import opened CirclePromotion
  import opened CircleRuns
  import opened CircleEffects
  import opened CircleIndex
  import opened CircleApproval
  import opened CircleWaiting
  import opened CircleFounding
  import CircleExecution
  import CircleLaws
  import R = CircleReference

  // ---------------------------------------------------------------- an approval that is lost

  function TwoVoters(block: Block): State {
    Admitted(Founded(), block, 1)
  }

  const SUBJECT := AddVotingMembers([9])

  /** Of two voters one proposes: open, with one vote of two. */
  function Opened(block: Block): State {
    Proposed(TwoVoters(block), block, SUBJECT)
  }

  lemma OpenedReachable(block: Block)
    ensures Reachable(TwoVoters(block), block) && Reachable(Opened(block), block)
    ensures Quiet(Opened(block)) && Opened(block).total == 2 && Opened(block).proposalCount == 2
    ensures 2 in Opened(block).proposals && Opened(block).proposals[2] == Draft(TwoVoters(block), block, SUBJECT)
  {
    hide Reachable, Handle;
    FoundedReachable(block);
    FounderAdmits(Founded(), block, block, 1);
    AdmissionValid(TwoVoters(block), block, 9);
    FounderProposes(TwoVoters(block), block, SUBJECT);
    ReachNext(TwoVoters(block), block, Call(block, 0, Propose(SUBJECT, NOBODY)), Opened(block));
  }

  /** One of two votes yes and the other never votes: a day later the proposal passes by its tally, but it
      is executed in no run, and anybody can have it stored as rejected. */
  lemma ApprovalLostInARun(block: Block, later: Block, sender: Addr, calls: seq<Call>)
    requires block.NotAfter(later) && later.time >= block.time + SECONDS_PER_DAY * NANOS_PER_SECOND
    requires Ordered(later, calls)
    ensures
      var s := Opened(block);
      && Reachable(s, block) && 2 in s.proposals && s.proposals[2].rules.allowEndEarly
      && s.proposals[2].status == Open && s.proposals[2].IsPassed(later) == Ok(true)
      && !ExecutedBy(s, calls, 2)
      && Handle(s, Call(later, sender, Close(2))).Ok?
      && Handle(s, Call(later, sender, Close(2))).value.proposals[2].status == Rejected
  {
    hide Reachable, VotesNeeded, Handle, Run, Opened;
    OpenedReachable(block);
    ReachableSound(Opened(block), block);
    FounderDecides();
    ApprovalAtExpiryIsLost(Opened(block), later, sender, 2, calls);
  }

  // ---------------------------------------------------------------- a proposal hidden by another

  /** The same proposal made twice in a block. */
  function OpenedTwice(block: Block): State {
    Proposed(Opened(block), block, SUBJECT)
  }

  lemma TwiceReachable(block: Block)
    ensures Reachable(OpenedTwice(block), block)
    ensures 3 in OpenedTwice(block).proposals && OpenedTwice(block).proposals[3] == Draft(Opened(block), block, SUBJECT)
    ensures 2 in OpenedTwice(block).proposals
    ensures OpenedTwice(block).proposals[2] == Draft(TwoVoters(block), block, SUBJECT)
    ensures OpenedTwice(block).ballots.Keys == {(1, 0), (2, 0), (3, 0)}
    ensures 1 in OpenedTwice(block).escrows && OpenedTwice(block).escrows[1] == EscrowStatus(STAKE, Voting)
    ensures OpenedTwice(block).proposals.Keys == {1, 2, 3} && OpenedTwice(block).proposals[1].status == Executed
  {
    hide Reachable, Handle;
    OpenedReachable(block);
    AdmissionValid(Opened(block), block, 9);
    FounderProposes(Opened(block), block, SUBJECT);
    ReachNext(Opened(block), block, Call(block, 0, Propose(SUBJECT, NOBODY)), OpenedTwice(block));
  }

  /** The other voter leaves, and has voted on neither: only the second proposal loses his point. */
  lemma HiddenInARun(block: Block)
    ensures
      var s := OpenedTwice(block);
      && Reachable(s, block) && 1 in s.escrows && s.escrows[1].status == Voting
      && (forall id :: id == 2 || id == 3 ==>
            id in s.proposals && s.proposals[id].status == Open && !s.proposals[id].IsExpired(block)
            && s.proposals[id].totalPoints == 2 && (id, 1) !in s.ballots)
      && var r := Leave(s, block, 1);
         r.Ok? && 2 in r.value.proposals && r.value.proposals[2].totalPoints == 2
         && 3 in r.value.proposals && r.value.proposals[3].totalPoints == 1
  {
    hide Reachable, Leave, OpenedTwice, Indexed, Inv;
    TwiceReachable(block);
    var s := OpenedTwice(block);
    ReachableSound(s, block);
    DayAhead(block);
    assert Shadowed(s, 2) by {
      assert 3 in s.proposals;
    }
    assert Adjusts(s, block.Seconds(), 1, 3);
    LeaveSucceedsIff(s, block, 1);
    LeaveAdjustsExactly(s, block, 1);
  }

  // ---------------------------------------------------------------- a member who cannot leave

  /** One open proposal, whose point everybody who leaves is to be taken from. */
  ghost predicate Watched(s: State, p: nat, second: nat, points: nat) {
    && p in s.proposals && s.proposals[p].status == Open && s.proposals[p].totalPoints == points
    && s.proposals[p].votes == Votes(1, 0, 0, 0)
    && ExpirySecond(s.proposals[p]) == second
    && (forall id :: id in s.proposals && id != p ==> s.proposals[id].status == Executed)
    && (forall id :: id in s.proposals && id > p ==> ExpirySecond(s.proposals[id]) != second)
    && (forall k :: k in s.ballots ==> k.1 == 0)
  }

  lemma WatchedAdjusts(s: State, p: nat, second: nat, points: nat, now: nat, a: Addr)
    requires Watched(s, p, second, points) && now < second && a != 0
    ensures forall id :: id in s.proposals ==> (Adjusts(s, now, a, id) <==> id == p)
  {
  }

  /** The state after a voter left. */
  function Gone(s: State, block: Block, a: Addr, p: nat): State
    requires a in s.escrows && p in s.proposals && s.total >= 1 && s.proposals[p].totalPoints >= 1
  {
    s.(members := s.members[a := 0],
       total := s.total - 1,
       escrows := s.escrows[a := s.escrows[a].(status := Leaving(block.Seconds() + SECONDS_PER_DAY * 2))],
       proposals := s.proposals[p := s.proposals[p].(totalPoints := s.proposals[p].totalPoints - 1)])
  }

  lemma Leaves(s: State, before: Block, block: Block, a: Addr, p: nat, second: nat, points: nat)
    requires Reachable(s, before) && before.NotAfter(block) && s.circle == FOUNDING.Circle()
    requires Watched(s, p, second, points) && points >= 1 && block.Seconds() < second
    requires a != 0 && a in s.escrows && s.escrows[a].status == Voting && s.total >= 1
    ensures Handle(s, Call(block, a, LeaveTrustedCircle)) == Ok(Gone(s, block, a, p))
    ensures Reachable(Gone(s, block, a, p), block)
    ensures Watched(Gone(s, block, a, p), p, second, points - 1)
  {
    hide Reachable, Inv, Indexed, Adjusts, AdjustForLeaver, OpenProposalIds;
    ReachableSound(s, before);
    SecondsMonotone(before, block);
    InvLater(s, before.Seconds(), block.Seconds());
    WatchedAdjusts(s, p, second, points, block.Seconds(), a);
    LeaveSucceedsIff(s, block, a);
    LeaveAdjustsExactly(s, block, a);
    assert Leave(s, block, a).value.proposals == Gone(s, block, a, p).proposals;
    ReachNext(s, before, Call(block, a, LeaveTrustedCircle), Gone(s, block, a, p));
  }

  lemma AdmittedWatched(s: State, block: Block, a: Addr, p: nat, second: nat, points: nat)
    requires Watched(s, p, second, points) && s.total == 1 && block.Seconds() + SECONDS_PER_DAY != second
    requires forall id :: id in s.proposals ==> id <= s.proposalCount
    ensures Watched(Admitted(s, block, a), p, second, points)
  {
    DayAhead(block);
  }

  /** The founder, alone, lets in a voter, who leaves again; the proposal loses a point. */
  lemma ComesAndGoes(s: State, before: Block, block: Block, a: Addr, p: nat, second: nat, points: nat)
    returns (next: State)
    requires Reachable(s, before) && before.NotAfter(block) && Quiet(s) && s.total == 1
    requires Watched(s, p, second, points) && points >= 1
    requires block.Seconds() < second && block.Seconds() + SECONDS_PER_DAY != second
    requires a != 0 && a !in s.escrows
    ensures Reachable(next, block) && Quiet(next) && next.total == 1 && Watched(next, p, second, points - 1)
    ensures next.escrows.Keys == s.escrows.Keys + {a}
  {
    hide Reachable, Watched, Handle;
    AdmitsSoundly(s, before, block, a);
    AdmittedWatched(s, block, a, p, second, points);
    var admitted := Admitted(s, block, a);
    WatchedPoints(admitted, p, second, points);
    Leaves(admitted, block, block, a, p, second, points);
    next := Gone(admitted, block, a, p);
  }

  lemma WatchedPoints(s: State, p: nat, second: nat, points: nat)
    requires Watched(s, p, second, points)
    ensures p in s.proposals && s.proposals[p].totalPoints == points && s.proposals[p].votes.Total() == 1
  {
  }

  lemma IdsInOrder(s: State, block: Block)
    requires Reachable(s, block)
    ensures forall id :: id in s.proposals ==> id <= s.proposalCount
    ensures forall id :: id in s.batches ==> id <= s.proposalCount
  {
    hide Reachable, Loose, PendingFresh, Checked, Conserved;
    ReachableSound(s, block);
  }

  lemma AdmittedFields(s: State, block: Block, a: Addr)
    requires Quiet(s) && s.total == 1 && a != 0
    ensures Quiet(Admitted(s, block, a)) && Admitted(s, block, a).total == 2
    ensures Admitted(s, block, a).escrows == s.escrows[a := EscrowStatus(STAKE, Voting)]
  {
  }

  lemma AdmitsSoundly(s: State, before: Block, block: Block, a: Addr)
    requires Reachable(s, before) && before.NotAfter(block) && Quiet(s) && s.total == 1 && a != 0 && a !in s.escrows
    ensures Reachable(Admitted(s, block, a), block) && Quiet(Admitted(s, block, a)) && Admitted(s, block, a).total == 2
    ensures forall id :: id in s.proposals ==> id <= s.proposalCount
    ensures Admitted(s, block, a).escrows == s.escrows[a := EscrowStatus(STAKE, Voting)]
  {
    hide Reachable, Admitted;
    IdsInOrder(s, before);
    AdmittedFields(s, block, a);
    FounderAdmits(s, before, block, a);
  }

  /** The proposal of two voters, after one of them left. */
  function Reduced(block: Block): State
    requires 1 in Opened(block).escrows && 2 in Opened(block).proposals && Opened(block).total >= 1
    requires Opened(block).proposals[2].totalPoints >= 1
  {
    Gone(Opened(block), block, 1, 2)
  }

  lemma OpenedWatched(block: Block)
    ensures Watched(Opened(block), 2, block.Seconds() + SECONDS_PER_DAY, 2)
    ensures 1 in Opened(block).escrows && Opened(block).escrows[1].status == Voting && Opened(block).total == 2
    ensures Opened(block).escrows.Keys == {0, 1}
  {
    DayAhead(block);
  }

  lemma ReducedSound(block: Block)
    ensures 1 in Opened(block).escrows && 2 in Opened(block).proposals && Opened(block).total >= 1
    ensures Opened(block).proposals[2].totalPoints >= 1
    ensures Reachable(Reduced(block), block) && Quiet(Reduced(block)) && Reduced(block).total == 1
    ensures Watched(Reduced(block), 2, block.Seconds() + SECONDS_PER_DAY, 1)
    ensures Reduced(block).escrows.Keys == {0, 1}
  {
    hide Reachable, Handle, Watched;
    OpenedReachable(block);
    OpenedWatched(block);
    WatchedPoints(Opened(block), 2, block.Seconds() + SECONDS_PER_DAY, 2);
    Leaves(Opened(block), block, block, 1, 2, block.Seconds() + SECONDS_PER_DAY, 2);
  }

  /** Stored as open with one vote of two points, it now passes by its tally: one vote of one. */
  lemma DriftInARun(block: Block)
    ensures 1 in Opened(block).escrows && 2 in Opened(block).proposals && Opened(block).total >= 1
    ensures Opened(block).proposals[2].totalPoints >= 1
    ensures Reachable(Reduced(block), block) && 2 in Reduced(block).proposals
    ensures !Drifted(Opened(block).proposals[2], block) && Drifted(Reduced(block).proposals[2], block)
  {
    hide Reachable, VotesNeeded, Opened, Watched;
    OpenedReachable(block);
    ReducedSound(block);
    FounderDecides();
  }

  /** Another voter comes and goes, and a third comes: he cannot leave, because the proposal, on which he was
      never entitled to vote, has no point left to be taken. Its one vote is more than its points. */
  lemma LeaverFailsInARun(block: Block, later: Block) returns (s: State)
    requires block.NotAfter(later) && block.Seconds() < later.Seconds() < block.Seconds() + SECONDS_PER_DAY
    ensures Reachable(s, later) && 3 in s.escrows && s.escrows[3].status == Voting
    ensures Leave(s, later, 3) == Err(PointsUnderflow)
    ensures 2 in s.proposals && s.proposals[2].totalPoints == 0 && s.proposals[2].votes.Total() == 1
  {
    hide Reachable, Watched, Quiet, Leave, Reduced;
    var second := block.Seconds() + SECONDS_PER_DAY;
    ReducedSound(block);
    var once := ComesAndGoes(Reduced(block), block, later, 2, 2, second, 1);
    AdmitsSoundly(once, later, later, 3);
    AdmittedWatched(once, later, 3, 2, second, 0);
    s := Admitted(once, later, 3);
    WatchedPoints(s, 2, second, 0);
    PointlessLeave(s, later, 3, 2, second);
  }

  lemma PointlessLeave(s: State, block: Block, a: Addr, p: nat, second: nat)
    requires Reachable(s, block) && Watched(s, p, second, 0) && block.Seconds() < second
    requires a != 0 && a in s.escrows && s.escrows[a].status == Voting
    ensures Leave(s, block, a) == Err(PointsUnderflow)
  {
    hide Reachable, Inv, Indexed, Adjusts, AdjustForLeaver, OpenProposalIds;
    ReachableSound(s, block);
    WatchedAdjusts(s, p, second, 0, block.Seconds(), a);
    LeaveSucceedsIff(s, block, a);
    TotalCovers(s, block.Seconds(), a);
    ListedIsStored(s, block.Seconds());
    StoredNotMissing(s.proposals, s.ballots, a, OpenProposalIds(s.byExpiry, block.Seconds()));
    AdjustmentErrors(s.proposals, s.ballots, a, OpenProposalIds(s.byExpiry, block.Seconds()));
    assert p in s.proposals && Adjusts(s, block.Seconds(), a, p) && s.proposals[p].totalPoints == 0;
  }

  lemma TotalCovers(s: State, now: nat, a: Addr)
    requires Inv(s, now) && a in s.escrows && s.escrows[a].status == Voting
    ensures s.total >= VOTING_POINTS
  {
    VoterCounted(s, a);
  }

  lemma {:induction false} AdjustmentErrors(proposals: map<nat, Proposal>, ballots: map<(nat, Addr), Ballot>,
                                            leaver: Addr, ids: seq<nat>)
    ensures
      var r := AdjustForLeaver(proposals, ballots, leaver, ids);
      r.Err? ==> r.error == MissingProposal || r.error == PointsUnderflow
    decreases |ids|
  {
    if ids == [] {
    } else {
      AdjustmentErrors(proposals, ballots, leaver, ids[1..]);
      if ids[0] in proposals && proposals[ids[0]].totalPoints >= VOTING_POINTS {
        var adjusted := proposals[ids[0]].(totalPoints := proposals[ids[0]].totalPoints - VOTING_POINTS);
        AdjustmentErrors(proposals[ids[0] := adjusted], ballots, leaver, ids[1..]);
      }
    }
  }

  // ---------------------------------------------------------------- a member who is stranded

  /** The new member pays half of his escrow. */
  function HalfPaid(block: Block): State {
    var s := Awaited(Proposed(Founded(), block, AddVotingMembers([1])), block, 1, 1);
    s.(escrows := s.escrows[1 := EscrowStatus(ONE_TGD, MemberStatus.Pending(1))],
       ledger := s.ledger.(deposited := s.ledger.deposited + ONE_TGD))
  }

  /** A day later his batch is promoted without him. */
  function TimedOut(block: Block): State {
    var s := HalfPaid(block);
    s.(batches := s.batches[1 := s.batches[1].(batchPromoted := true)])
  }

  /** Then the escrow is to be halved. */
  const HALVED := EditTrustedCircle(Adjustments(None, Some(ONE_TGD), None, None, None, None, None))

  function Halved(block: Block, later: Block): State {
    var s := Proposed(TimedOut(block), later, HALVED);
    s.(proposals := s.proposals[2 := s.proposals[2].(status := Executed)],
       circle := s.circle.(escrowPending := Some(PendingEscrow(2, ONE_TGD, later.Seconds() + SECONDS_PER_DAY))))
  }

  lemma HalfPaidReachable(block: Block)
    ensures Reachable(HalfPaid(block), block)
  {
    hide Reachable;
    var proposed := Proposed(Founded(), block, AddVotingMembers([1]));
    var awaited := Awaited(proposed, block, 1, 1);
    FoundedReachable(block);
    AdmissionValid(Founded(), block, 1);
    FounderProposes(Founded(), block, AddVotingMembers([1]));
    AdmissionExecutes(proposed, block, 1, 1);
    hide Handle;
    ReachNext(Founded(), block, Call(block, 0, Propose(AddVotingMembers([1]), NOBODY)), proposed);
    ReachNext(proposed, block, Call(block, 1, Execute(1, NOBODY)), awaited);
    HalfPays(block);
    ReachNext(awaited, block, Call(block, 1, DepositEscrow(ONE_TGD)), HalfPaid(block));
  }

  lemma HalfPays(block: Block)
    ensures
      var awaited := Awaited(Proposed(Founded(), block, AddVotingMembers([1])), block, 1, 1);
      Handle(awaited, Call(block, 1, DepositEscrow(ONE_TGD))) == Ok(HalfPaid(block))
  {
  }

  lemma TimesOut(block: Block, later: Block)
    requires later.Seconds() >= block.Seconds() + SECONDS_PER_DAY
    ensures CheckAllPending(HalfPaid(block), later) == Ok(TimedOut(block))
  {
    hide HalfPaid, Ascending;
    HalfPaidFields(block);
    var s := HalfPaid(block);
    assert ReadyBatches(s.batches, later.Seconds()) == [1] by {
      OnlyBatchReady(s.batches, later.Seconds());
    }
    assert ConvertEach(s, [1]) == Ok((s, 0)) by {
      assert [1][1..] == [];
    }
    assert ConvertAllPaid(s, 1, s.batches[1]) == Ok(TimedOut(block));
    assert [1][1..] == [];
  }

  lemma HalfPaidFields(block: Block)
    ensures HalfPaid(block).batches == map[1 := Batch(block.Seconds() + SECONDS_PER_DAY, 1, false, [1])]
    ensures 1 in HalfPaid(block).escrows && HalfPaid(block).escrows[1] == EscrowStatus(ONE_TGD, MemberStatus.Pending(1))
    ensures HalfPaid(block).circle == FOUNDING.Circle()
  {
  }

  lemma OnlyBatchReady(batches: map<nat, Batch>, now: nat)
    requires batches.Keys == {1} && batches[1].IsReady(now)
    ensures ReadyBatches(batches, now) == [1]
  {
    var ids := set id | id in batches && batches[id].IsReady(now);
    assert ids == {1};
    assert 1 in Ascending(ids);
    assert forall x :: x in Ascending(ids) ==> x == 1;
    assert |Ascending(ids)| == 1;
  }

  lemma HalvedReachable(block: Block, later: Block)
    requires block.NotAfter(later) && later.Seconds() >= block.Seconds() + SECONDS_PER_DAY
    ensures Reachable(Halved(block, later), later)
  {
    hide Reachable, Halved, HalfPaid;
    HalfPaidReachable(block);
    TimesOut(block, later);
    ReachNext(HalfPaid(block), block, Call(later, 0, CheckPending), TimedOut(block));
    TimedOutQuiet(block);
    HalvingValid(TimedOut(block), later);
    FounderProposes(TimedOut(block), later, HALVED);
    hide Handle;
    var proposed := Proposed(TimedOut(block), later, HALVED);
    ReachNext(TimedOut(block), later, Call(later, 0, Propose(HALVED, NOBODY)), proposed);
    HalvingExecutes(block, later);
    ReachNext(proposed, later, Call(later, 0, Execute(2, NOBODY)), Halved(block, later));
  }

  lemma TimedOutQuiet(block: Block)
    ensures Quiet(TimedOut(block)) && TimedOut(block).total == 1 && TimedOut(block).proposalCount == 1
  {
  }

  lemma HalvingValid(s: State, block: Block)
    requires s.circle == FOUNDING.Circle()
    ensures ValidateContent(s, block, HALVED, NOBODY).Ok?
  {
    assert !IsWhiteSpace(s.circle.name[0]);
    assert !IsBlank(s.circle.name);
    assert Utf8Length(s.circle.name[1..]) == 0;
  }

  lemma HalvingExecutes(block: Block, later: Block)
    ensures
      var proposed := Proposed(TimedOut(block), later, HALVED);
      Handle(proposed, Call(later, 0, Execute(2, NOBODY))) == Ok(Halved(block, later))
  {
  }

  /** The member reaches the halved escrow when it falls due, and counts as paid; but his batch had its
      turn, and in no run without another executed proposal does he become a voter. */
  lemma StrandedInARun(block: Block, later: Block, due: Block, calls: seq<Call>)
    requires block.NotAfter(later) && later.Seconds() >= block.Seconds() + SECONDS_PER_DAY
    requires later.NotAfter(due) && due.Seconds() >= later.Seconds() + SECONDS_PER_DAY
    requires Ordered(due, calls) && NothingExecuted(calls)
    ensures
      var s := Halved(block, later);
      && Reachable(s, later) && 1 in s.escrows && s.escrows[1] == EscrowStatus(ONE_TGD, MemberStatus.Pending(1))
      && var r := CheckAllPending(s, due);
         r.Ok? && 1 in r.value.escrows && r.value.escrows[1] == EscrowStatus(ONE_TGD, PendingPaid(1))
         && !MadeVoter(r.value, calls, 1)
  {
    hide Reachable, Inv, Halved, CheckAllPending, Run;
    HalvedReachable(block, later);
    HalvedFields(block, later);
    var s := Halved(block, later);
    ReachableSound(s, later);
    SecondsMonotone(later, due);
    InvLater(s, later.Seconds(), due.Seconds());
    CheckPendingSucceedsIff(s, due);
    CheckAllPendingResult(s, due);
    LoweredEscrowStrands(s, due, 1, calls);
  }

  lemma HalvedFields(block: Block, later: Block)
    ensures
      var s := Halved(block, later);
      && s.batches.Keys == {1} && s.batches[1].batchPromoted
      && 1 in s.escrows && s.escrows[1] == EscrowStatus(ONE_TGD, MemberStatus.Pending(1))
      && s.circle.escrowAmount == STAKE
      && s.circle.escrowPending == Some(PendingEscrow(2, ONE_TGD, later.Seconds() + SECONDS_PER_DAY))
  {
  }

  // ---------------------------------------------------------------- a leaver who is refunded at once

  /** Of two voters the second leaves. */
  function WentAway(block: Block): State {
    var s := TwoVoters(block);
    s.(members := s.members[1 := 0], total := 1,
       escrows := s.escrows[1 := EscrowStatus(STAKE, Leaving(block.Seconds() + 2 * SECONDS_PER_DAY))])
  }

  lemma WentAwayReachable(block: Block)
    ensures Handle(TwoVoters(block), Call(block, 1, LeaveTrustedCircle)) == Ok(WentAway(block))
    ensures Reachable(WentAway(block), block)
  {
    hide Reachable, Inv, Indexed, Handle, R.TakesPoint;
    OpenedReachable(block);
    ReachableSound(TwoVoters(block), block);
    WentAwayCounted(block);
    NothingTaken(block);
    CircleExecution.HandleConforms(TwoVoters(block), Call(block, 1, LeaveTrustedCircle), WentAway(block));
    ReachNext(TwoVoters(block), block, Call(block, 1, LeaveTrustedCircle), WentAway(block));
  }

  lemma NothingTaken(block: Block)
    ensures R.PointsTaken(TwoVoters(block), block, 1, WentAway(block).proposals)
  {
  }

  lemma WentAwayCounted(block: Block)
    ensures R.Counted(WentAway(block))
  {
    var s := WentAway(block);
    assert (set a | a in s.escrows && s.escrows[a].status == Voting) == {0};
  }

  /** He is punished, but not kicked out. */
  const HALF_BURNED := PunishMembers([BurnEscrow(1, HALF, false)])

  /** So he is to pay again. */
  function Burned(s: State, block: Block, id: nat): State {
    s.(escrows := s.escrows[1 := EscrowStatus(ONE_TGD, MemberStatus.Pending(id))],
       batches := s.batches[id := Batch(block.Seconds(), 1, false, [1])],
       ledger := s.ledger.(burned := s.ledger.burned + ONE_TGD))
  }

  function Demoted(block: Block): State {
    var s := Proposed(WentAway(block), block, HALF_BURNED);
    Burned(s.(proposals := s.proposals[2 := s.proposals[2].(status := Executed)]), block, 2)
  }

  /** And having paid he votes again. */
  function Rejoined(s: State, block: Block, id: nat): State {
    s.(escrows := s.escrows[1 := EscrowStatus(3 * ONE_TGD, Voting)], members := s.members[1 := 1], total := 2,
       batches := s.batches[id := Batch(block.Seconds(), 0, true, [1])],
       ledger := s.ledger.(deposited := s.ledger.deposited + STAKE))
  }

  function PaidAgain(block: Block): State {
    Rejoined(Demoted(block), block, 2)
  }

  lemma WentAwayFields(block: Block)
    ensures Quiet(WentAway(block)) && WentAway(block).total == 1 && WentAway(block).proposalCount == 1
    ensures WentAway(block).batches.Keys == {1} && WentAway(block).members == map[0 := 1, 1 := 0]
    ensures WentAway(block).escrows == map[0 := EscrowStatus(STAKE, Voting),
                                           1 := EscrowStatus(STAKE, Leaving(block.Seconds() + 2 * SECONDS_PER_DAY))]
  {
  }

  lemma PunishmentValid(block: Block)
    ensures ValidateContent(WentAway(block), block, HALF_BURNED, NOBODY).Ok?
  {
    hide WentAway;
    WentAwayFields(block);
    var s, ps := WentAway(block), HALF_BURNED.punishments;
    assert ps == [BurnEscrow(1, HALF, false)] && ps[1..] == [];
    assert ValidatePunishment(s, ps[0]).Ok?;
    assert ValidatePunishments(s, ps[1..]).Ok?;
  }

  lemma HalfIsBurned(s: State, block: Block, id: nat)
    requires 1 in s.escrows && s.escrows[1].paid == STAKE && s.escrows[1].status.Leaving?
    requires s.circle == FOUNDING.Circle() && id !in s.batches
    ensures PunishAll(s, block, id, [BurnEscrow(1, HALF, false)]) == Ok(Burned(s, block, id))
  {
    var p := BurnEscrow(1, HALF, false);
    var middle := Burned(s, block, id).(batches := s.batches);
    assert SlashOf(STAKE, p) == Ok(Slash([], 0, ONE_TGD, ONE_TGD));
    assert s.ledger.payments + [] == s.ledger.payments;
    assert Punish(s, block, id, p) == Ok((middle, true));
    assert [p][1..] == [] && [p.member] + [] == [1];
    assert PunishEach(s, block, id, [p]) == Ok((middle, [1]));
  }

  lemma DemotionExecutes(block: Block)
    ensures
      var proposed := Proposed(WentAway(block), block, HALF_BURNED);
      Handle(proposed, Call(block, 0, Execute(2, NOBODY))) == Ok(Demoted(block))
  {
    hide WentAway, PunishAll;
    WentAwayFields(block);
    HalfIsBurned(Marked(Proposed(WentAway(block), block, HALF_BURNED), 2), block, 2);
  }

  lemma RejoinedCounted(s: State, block: Block, id: nat)
    requires s.escrows.Keys == s.members.Keys == {0, 1} && s.escrows[0].status == Voting && s.members[0] == 1
    ensures R.Counted(Rejoined(s, block, id))
  {
    var next := Rejoined(s, block, id);
    assert (set a | a in next.escrows && next.escrows[a].status == Voting) == {0, 1};
  }

  lemma PaysAgain(s: State, block: Block, id: nat)
    requires Reachable(s, block) && s.circle == FOUNDING.Circle()
    requires s.escrows.Keys == s.members.Keys == {0, 1} && s.escrows[0].status == Voting && s.members[0] == 1
    requires s.escrows[1] == EscrowStatus(ONE_TGD, MemberStatus.Pending(id))
    requires id in s.batches && s.batches[id] == Batch(block.Seconds(), 1, false, [1])
    ensures Handle(s, Call(block, 1, DepositEscrow(STAKE))) == Ok(Rejoined(s, block, id))
  {
    hide Reachable, Inv, Indexed, Handle, R.Counted;
    ReachableSound(s, block);
    RejoinedCounted(s, block, id);
    CircleExecution.HandleConforms(s, Call(block, 1, DepositEscrow(STAKE)), Rejoined(s, block, id));
  }

  lemma QuietCircle(s: State)
    requires Quiet(s)
    ensures s.circle == FOUNDING.Circle()
  {
  }

  lemma DemotedFields(block: Block)
    ensures
      var s := Demoted(block);
      && s.circle == FOUNDING.Circle()
      && s.escrows.Keys == s.members.Keys == {0, 1} && s.escrows[0].status == Voting && s.members[0] == 1
      && s.escrows[1] == EscrowStatus(ONE_TGD, MemberStatus.Pending(2))
      && 2 in s.batches && s.batches[2] == Batch(block.Seconds(), 1, false, [1])
  {
    hide WentAway, Draft, Quiet;
    WentAwayFields(block);
    QuietCircle(WentAway(block));
  }

  lemma PaidAgainReachable(block: Block)
    ensures Reachable(PaidAgain(block), block)
  {
    hide Reachable, Handle, WentAway, Demoted, Rejoined;
    WentAwayReachable(block);
    WentAwayFields(block);
    PunishmentValid(block);
    FounderProposes(WentAway(block), block, HALF_BURNED);
    var proposed := Proposed(WentAway(block), block, HALF_BURNED);
    ReachNext(WentAway(block), block, Call(block, 0, Propose(HALF_BURNED, NOBODY)), proposed);
    DemotionExecutes(block);
    ReachNext(proposed, block, Call(block, 0, Execute(2, NOBODY)), Demoted(block));
    DemotedFields(block);
    PaysAgain(Demoted(block), block, 2);
    ReachNext(Demoted(block), block, Call(block, 1, DepositEscrow(STAKE)), PaidAgain(block));
  }

  /** A punishment without a kick-out undoes the leaving: he is to pay again, votes, and is refunded what he
      has too much, all in the block in which he left. */
  lemma LeaverRefundedAtOnceInARun(block: Block)
    ensures Handle(TwoVoters(block), Call(block, 1, LeaveTrustedCircle)) == Ok(WentAway(block))
    ensures Reachable(WentAway(block), block) && Reachable(PaidAgain(block), block)
    ensures
      var claim := Handle(PaidAgain(block), Call(block, 1, ReturnEscrow));
      claim.Ok? && claim.value.ledger.refunded == PaidAgain(block).ledger.refunded + ONE_TGD
  {
    hide Reachable, Leave;
    WentAwayReachable(block);
    PaidAgainReachable(block);
  }

  // ---------------------------------------------------------------- a leaver who is never cleared out

  /** He is kicked out, and his whole escrow burned. */
  const ALL_BURNED := PunishMembers([BurnEscrow(1, ONE, true)])

  function Emptied(block: Block): State {
    var s := Proposed(WentAway(block), block, ALL_BURNED);
    s.(proposals := s.proposals[2 := s.proposals[2].(status := Executed)],
       escrows := s.escrows[1 := EscrowStatus(0, Leaving(block.Seconds() + 2 * SECONDS_PER_DAY))],
       ledger := s.ledger.(burned := s.ledger.burned + STAKE))
  }

  lemma KickOutValid(block: Block)
    ensures ValidateContent(WentAway(block), block, ALL_BURNED, NOBODY).Ok?
  {
    hide WentAway;
    WentAwayFields(block);
    var s, ps := WentAway(block), ALL_BURNED.punishments;
    assert ps == [BurnEscrow(1, ONE, true)] && ps[1..] == [];
    assert ValidatePunishment(s, ps[0]).Ok?;
    assert ValidatePunishments(s, ps[1..]).Ok?;
  }

  lemma AllIsBurned(s: State, block: Block, id: nat)
    requires 1 in s.escrows && s.escrows[1].paid == STAKE && s.escrows[1].status.Leaving?
    requires s.circle == FOUNDING.Circle()
    ensures PunishAll(s, block, id, [BurnEscrow(1, ONE, true)]) ==
      Ok(s.(escrows := s.escrows[1 := EscrowStatus(0, Leaving(block.Seconds() + 2 * SECONDS_PER_DAY))],
            ledger := s.ledger.(burned := s.ledger.burned + STAKE)))
  {
    var p := BurnEscrow(1, ONE, true);
    var next := s.(escrows := s.escrows[1 := EscrowStatus(0, Leaving(block.Seconds() + 2 * SECONDS_PER_DAY))],
                   ledger := s.ledger.(burned := s.ledger.burned + STAKE));
    assert SlashOf(STAKE, p) == Ok(Slash([], 0, STAKE, 0));
    assert s.ledger.payments + [] == s.ledger.payments;
    assert Punish(s, block, id, p) == Ok((next, false));
    assert [p][1..] == [];
    var none: seq<Addr> := [];
    assert none + [] == none;
    assert PunishEach(s, block, id, [p]) == Ok((next, none));
  }

  lemma KickOutExecutes(block: Block)
    ensures
      var proposed := Proposed(WentAway(block), block, ALL_BURNED);
      Handle(proposed, Call(block, 0, Execute(2, NOBODY))) == Ok(Emptied(block))
  {
    hide WentAway, PunishAll;
    WentAwayFields(block);
    AllIsBurned(Marked(Proposed(WentAway(block), block, ALL_BURNED), 2), block, 2);
  }

  lemma EmptiedReachable(block: Block)
    ensures Reachable(Emptied(block), block)
  {
    hide Reachable, Handle, WentAway, Emptied;
    WentAwayReachable(block);
    WentAwayFields(block);
    KickOutValid(block);
    FounderProposes(WentAway(block), block, ALL_BURNED);
    var proposed := Proposed(WentAway(block), block, ALL_BURNED);
    ReachNext(WentAway(block), block, Call(block, 0, Propose(ALL_BURNED, NOBODY)), proposed);
    KickOutExecutes(block);
    ReachNext(proposed, block, Call(block, 0, Execute(2, NOBODY)), Emptied(block));
  }

  lemma EmptiedWaits(block: Block)
    ensures CircleLaws.Waits(Emptied(block), 1, 0, block.Seconds() + 2 * SECONDS_PER_DAY)
  {
  }

  /** His entry is there after every run in which he is not punished again, though every attempt to take back
      his escrow succeeds once its time has come. */
  lemma EmptyLeaverStaysInARun(block: Block, calls: seq<Call>, later: Block)
    requires Ordered(block, calls) && CircleLaws.Unpunished(Emptied(block), calls, 1)
    requires block.Seconds() + 2 * SECONDS_PER_DAY <= later.Seconds()
    ensures Reachable(Emptied(block), block)
    ensures
      var end := Run(Emptied(block), calls);
      && 1 in end.escrows && end.escrows[1] == EscrowStatus(0, Leaving(block.Seconds() + 2 * SECONDS_PER_DAY))
      && Handle(end, Call(later, 1, ReturnEscrow)) == Ok(end)
  {
    hide Reachable, Emptied, Run, Inv, Indexed, Ordered, CircleLaws.Unpunished;
    EmptiedReachable(block);
    EmptiedWaits(block);
    ReachableSound(Emptied(block), block);
    CircleLaws.RunKeepsWaiting(Emptied(block), block, calls, 1, 0, block.Seconds() + 2 * SECONDS_PER_DAY);
  }
}
