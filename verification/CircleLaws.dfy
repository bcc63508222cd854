/**
 What follows over runs from what the messages do: tallies count the ballots, an escrow once met is enough
 for a pending change, and who leaves waits for his escrow.
 */
module CircleLaws {
  import opened Base
  import opened Sums
  import opened Voting
  import opened Circle
  import opened CircleInvariant
  import opened CirclePromotion
  import opened CircleRuns
  import opened CircleIndex
  import opened CircleExecution
  import R = CircleReference

  // ---------------------------------------------------------------- steps

  /** Every step is one of the reference, or nothing. */
  lemma StepIsTransition(s: State, block: Block, call: Call)
    requires Inv(s, block.Seconds()) && Indexed(s) && block.NotAfter(call.block)
    ensures Inv(Step(s, call), call.block.Seconds()) && Indexed(Step(s, call))
    ensures R.Transition(s, call, Step(s, call)) || Step(s, call) == s
  {
    hide Inv, Indexed, Handle, R.Transition;
    SecondsMonotone(block, call.block);
    InvLater(s, block.Seconds(), call.block.Seconds());
    StepKeeps(s, block, call);
    HandleKeepsIndex(s, call);
    if Handle(s, call).Ok? {
      HandleConforms(s, call, Handle(s, call).value);
    }
  }

  // ---------------------------------------------------------------- tallies count the ballots

  /** The points of the ballots on a proposal for one option. */
  function PointsFor(ballots: map<(nat, Addr), Ballot>, id: nat, vote: Vote): map<(nat, Addr), int> {
    map k | k in ballots && k.0 == id && ballots[k].vote == vote :: ballots[k].points
  }

  ghost predicate CountsBallots(votes: Votes, ballots: map<(nat, Addr), Ballot>, id: nat) {
    && votes.yes == Sum(PointsFor(ballots, id, Yes))
    && votes.no == Sum(PointsFor(ballots, id, No))
    && votes.abstain == Sum(PointsFor(ballots, id, Abstain))
    && votes.veto == Sum(PointsFor(ballots, id, Veto))
  }

  /** Every tally counts the ballots cast on its proposal, and there are none on proposals yet to be made. */
  ghost predicate TalliesCount(s: State) {
    && (forall id :: id in s.proposals ==> id <= s.proposalCount && CountsBallots(s.proposals[id].votes, s.ballots, id))
    && (forall k :: k in s.ballots ==> k.0 <= s.proposalCount)
  }

  lemma BallotCast(ballots: map<(nat, Addr), Ballot>, id: nat, a: Addr, ballot: Ballot, vote: Vote)
    requires (id, a) !in ballots
    ensures Sum(PointsFor(ballots[(id, a) := ballot], id, vote)) ==
      Sum(PointsFor(ballots, id, vote)) + (if ballot.vote == vote then ballot.points else 0)
  {
    var cast := ballots[(id, a) := ballot];
    if ballot.vote == vote {
      assert PointsFor(cast, id, vote) == PointsFor(ballots, id, vote)[(id, a) := ballot.points];
      SumUpdate(PointsFor(ballots, id, vote), (id, a), ballot.points);
    } else {
      assert PointsFor(cast, id, vote) == PointsFor(ballots, id, vote);
    }
  }

  lemma CountedWith(votes: Votes, ballots: map<(nat, Addr), Ballot>, id: nat, a: Addr, power: nat, vote: Vote)
    requires CountsBallots(votes, ballots, id) && (id, a) !in ballots
    ensures CountsBallots(R.WithVote(votes, vote, power), ballots[(id, a) := Ballot(power, vote)], id)
  {
    hide Sum, PointsFor;
    BallotCast(ballots, id, a, Ballot(power, vote), Yes);
    BallotCast(ballots, id, a, Ballot(power, vote), No);
    BallotCast(ballots, id, a, Ballot(power, vote), Abstain);
    BallotCast(ballots, id, a, Ballot(power, vote), Veto);
  }

  lemma OthersCounted(votes: Votes, ballots: map<(nat, Addr), Ballot>, id: nat, k: (nat, Addr), ballot: Ballot)
    requires CountsBallots(votes, ballots, id) && k.0 != id
    ensures CountsBallots(votes, ballots[k := ballot], id)
  {
    assert forall vote :: PointsFor(ballots[k := ballot], id, vote) == PointsFor(ballots, id, vote);
  }

  lemma NothingCounted(ballots: map<(nat, Addr), Ballot>, id: nat)
    requires forall k :: k in ballots ==> k.0 != id
    ensures CountsBallots(NO_VOTES, ballots, id)
  {
    forall vote: Vote ensures Sum(PointsFor(ballots, id, vote)) == 0 {
      assert PointsFor(ballots, id, vote).Keys == {};
    }
  }

  /** Ballots and tallies are as before, though points, status and members may change. */
  ghost predicate SameVotes(s: State, next: State) {
    && next.ballots == s.ballots && next.proposalCount == s.proposalCount && next.proposals.Keys == s.proposals.Keys
    && forall id :: id in s.proposals ==> next.proposals[id].votes == s.proposals[id].votes
  }

  lemma SameVotesCount(s: State, next: State)
    requires TalliesCount(s) && SameVotes(s, next)
    ensures TalliesCount(next)
  {
    hide CountsBallots;
  }

  lemma PunishedSameVotes(s: State, block: Block, id: nat, p: Punishment, demoted: bool, next: State)
    requires R.PunishedBy(s, block, id, p, demoted, next)
    ensures SameVotes(s, next)
  {
    hide R.Counted, R.Charges, R.TakesPoint;
  }

  lemma {:induction false} PunishedInTurnSameVotes(s: State, block: Block, id: nat, ps: seq<Punishment>,
                                                   demoted: seq<Addr>, next: State)
    requires R.PunishedInTurn(s, block, id, ps, demoted, next)
    ensures SameVotes(s, next)
    decreases |ps|
  {
    hide R.PunishedBy;
    if ps == [] {
    } else {
      var middle, again :| R.PunishedBy(s, block, id, ps[0], again, middle)
        && (again ==> demoted != [] && demoted[0] == ps[0].member)
        && R.PunishedInTurn(middle, block, id, ps[1..], if again then demoted[1..] else demoted, next);
      PunishedSameVotes(s, block, id, ps[0], again, middle);
      PunishedInTurnSameVotes(middle, block, id, ps[1..], if again then demoted[1..] else demoted, next);
    }
  }

  lemma ExecutedSameVotes(s: State, block: Block, id: nat, denied: set<Addr>, next: State)
    requires R.ProposalExecuted(s, block, id, denied, next)
    ensures SameVotes(s, next)
  {
    hide R.Counted, R.PunishedInTurn;
    var marked := s.(proposals := s.proposals[id := s.proposals[id].(status := Executed)]);
    if s.proposals[id].content.PunishMembers? {
      var ps := s.proposals[id].content.punishments;
      var middle, demoted :| R.PunishedInTurn(marked, block, id, ps, demoted, middle)
        && next == middle.(batches := if demoted == [] then marked.batches else
                             marked.batches[id := Batch(R.Now(block), |demoted|, false, demoted)]);
      PunishedInTurnSameVotes(marked, block, id, ps, demoted, middle);
    }
  }

  /** Making a proposal writes nothing about members. */
  lemma DraftedRest(s: State, block: Block, sender: Addr, content: Content, next: State)
    requires R.Drafted(s, block, sender, content, next)
    ensures next.escrows == s.escrows && next.circle == s.circle
  {
    hide R.PassesEarly;
  }

  lemma CheckSameVotes(s: State, block: Block, next: State)
    requires R.CheckEffect(s, block, next)
    ensures SameVotes(s, next)
  {
    hide R.AfterCheck, R.BatchesChecked, R.Counted;
  }

  lemma DraftedCounts(s: State, block: Block, sender: Addr, content: Content, next: State)
    requires TalliesCount(s) && R.Drafted(s, block, sender, content, next)
    ensures TalliesCount(next)
  {
    hide CountsBallots, R.PassesEarly;
    var id := s.proposalCount + 1;
    NothingCounted(s.ballots, id);
    CountedWith(NO_VOTES, s.ballots, id, sender, 1, Yes);
    assert R.WithVote(NO_VOTES, Yes, 1) == Votes(1, 0, 0, 0);
    forall other | other in s.proposals ensures CountsBallots(s.proposals[other].votes, next.ballots, other) {
      OthersCounted(s.proposals[other].votes, s.ballots, other, (id, sender), Ballot(1, Yes));
    }
  }

  lemma MadeCounts(s: State, block: Block, sender: Addr, content: Content, others: Others, next: State)
    requires TalliesCount(s) && R.ProposalMade(s, block, sender, content, others, next)
    ensures TalliesCount(next)
  {
    hide TalliesCount, R.CheckAccepted, R.CheckEffect, R.Drafted, R.ContentAccepted;
    var checked :| R.Prepared(s, block, checked) && R.Drafted(checked, block, sender, content, next);
    if block.height > 0 {
      CheckSameVotes(s, block, checked);
      SameVotesCount(s, checked);
    }
    DraftedCounts(checked, block, sender, content, next);
  }

  lemma VoteCounts(s: State, block: Block, sender: Addr, id: nat, vote: Vote, power: nat, next: State)
    requires TalliesCount(s) && R.VoteAccepted(s, block, sender, id, power)
    requires R.VoteEffect(s, sender, id, vote, power, next)
    ensures TalliesCount(next)
  {
    hide CountsBallots, R.WithVote, R.PassesEarly;
    CountedWith(s.proposals[id].votes, s.ballots, id, sender, power, vote);
    forall other | other in s.proposals && other != id
      ensures CountsBallots(s.proposals[other].votes, next.ballots, other)
    {
      OthersCounted(s.proposals[other].votes, s.ballots, other, (id, sender), Ballot(power, vote));
    }
  }

  lemma DepositSameVotes(s: State, block: Block, sender: Addr, amount: nat, next: State)
    requires R.DepositAccepted(s, block, sender, amount) && R.DepositEffect(s, block, sender, amount, next)
    ensures SameVotes(s, next)
  {
    hide R.DepositAccepted, R.AfterDeposit, R.Counted, R.PaysUp;
  }

  lemma ReturnSameVotes(s: State, block: Block, sender: Addr, next: State)
    requires R.ReturnAccepted(s, block, sender) && R.ReturnEffect(s, block, sender, next)
    ensures SameVotes(s, next)
  {
    hide R.Meets;
  }

  lemma LeftSameVotes(s: State, block: Block, sender: Addr, next: State)
    requires R.HasLeft(s, block, sender, next)
    ensures SameVotes(s, next)
  {
    hide R.Counted, R.TakesPoint;
  }

  lemma TransitionCounts(s: State, call: Call, next: State)
    requires TalliesCount(s) && R.Transition(s, call, next)
    ensures TalliesCount(next)
  {
    hide TalliesCount, R.DepositAccepted, R.DepositEffect, R.ReturnAccepted, R.ReturnEffect, R.CheckAccepted,
        R.CheckEffect, R.ProposalMade, R.VoteAccepted, R.VoteEffect, R.TallyTraps, R.WithVote, R.ProposalExecuted,
        R.HasLeft;
    match call.message
    case DepositEscrow(amount) =>
      DepositSameVotes(s, call.block, call.sender, amount, next);
      SameVotesCount(s, next);
    case ReturnEscrow =>
      ReturnSameVotes(s, call.block, call.sender, next);
      SameVotesCount(s, next);
    case Propose(content, others) => MadeCounts(s, call.block, call.sender, content, others, next);
    case CastVote(id, vote, power) => VoteCounts(s, call.block, call.sender, id, vote, power, next);
    case Execute(id, others) =>
      ExecutedSameVotes(s, call.block, id, others.denied, next);
      SameVotesCount(s, next);
    case Close(_) => SameVotesCount(s, next);
    case LeaveTrustedCircle =>
      LeftSameVotes(s, call.block, call.sender, next);
      SameVotesCount(s, next);
    case CheckPending =>
      CheckSameVotes(s, call.block, next);
      SameVotesCount(s, next);
  }

  lemma {:induction false} RunCounts(s: State, block: Block, calls: seq<Call>)
    requires Inv(s, block.Seconds()) && Indexed(s) && Ordered(block, calls) && TalliesCount(s)
    ensures TalliesCount(Run(s, calls))
    decreases |calls|
  {
    hide Inv, Indexed, TalliesCount, Step, R.Transition;
    if calls == [] {
    } else {
      StepIsTransition(s, block, calls[0]);
      if R.Transition(s, calls[0], Step(s, calls[0])) {
        TransitionCounts(s, calls[0], Step(s, calls[0]));
      }
      RunCounts(Step(s, calls[0]), calls[0].block, calls[1..]);
    }
  }

  /** After every run, each option of each stored proposal's tally is the sum of the points of the ballots
      cast on it for that option. Nothing is claimed about the proposal's total points. */
  lemma ReachableTalliesCount(block: Block, sender: Addr, amount: nat, msg: InstantiateMsg, denied: set<Addr>,
                              calls: seq<Call>, id: nat)
    requires Instantiate(sender, amount, msg, denied).Ok? && Ordered(block, calls)
    ensures
      var s := Run(Instantiate(sender, amount, msg, denied).value, calls);
      id in s.proposals ==>
        && s.proposals[id].votes.yes == Sum(PointsFor(s.ballots, id, Yes))
        && s.proposals[id].votes.no == Sum(PointsFor(s.ballots, id, No))
        && s.proposals[id].votes.abstain == Sum(PointsFor(s.ballots, id, Abstain))
        && s.proposals[id].votes.veto == Sum(PointsFor(s.ballots, id, Veto))
  {
    hide Inv, Indexed, Run, Instantiate, Ordered, Sum, PointsFor;
    var s0 := Instantiate(sender, amount, msg, denied).value;
    InstantiateEstablishes(block, sender, amount, msg, denied);
    StartIndexed(sender, amount, msg, denied);
    InstantiateConforms(sender, amount, msg, denied, s0);
    RunCounts(s0, block, calls);
  }

  /** A vote that goes through stores one new ballot of the voter, with the option he chose and his power, adds
      that power to that option of that tally, and changes no other ballot, tally or proposal. */
  lemma VoteResult(s: State, call: Call)
    requires call.message.CastVote? && Handle(s, call).Ok?
    ensures
      var next, id, vote := Handle(s, call).value, call.message.proposalId, call.message.vote;
      && (id, call.sender) !in s.ballots && id in s.proposals
      && next.ballots == s.ballots[(id, call.sender) := Ballot(call.message.power, vote)]
      && next.proposals == s.proposals[id := next.proposals[id]]
      && next.proposals[id].votes.For(vote) == s.proposals[id].votes.For(vote) + call.message.power
      && (forall other: Vote :: other != vote ==>
            next.proposals[id].votes.For(other) == s.proposals[id].votes.For(other))
      && next.proposals[id].content == s.proposals[id].content
      && next.proposals[id].totalPoints == s.proposals[id].totalPoints
      && next == s.(proposals := next.proposals, ballots := next.ballots)
  {
    hide R.PassesEarly, R.TallyTraps;
    var next, id, vote := Handle(s, call).value, call.message.proposalId, call.message.vote;
    VoteConforms(s, call.block, call.sender, id, vote, call.message.power, next);
    assert R.VoteEffect(s, call.sender, id, vote, call.message.power, next);
  }

  // ---------------------------------------------------------------- escrow once met

  /** Votes or paid to vote, with enough both for the escrow in force and for the pending one. */
  predicate Secure(s: State, a: Addr) {
    && a in s.escrows && (s.escrows[a].status == Voting || s.escrows[a].status.PendingPaid?)
    && R.Meets(s.circle, s.escrows[a].paid)
  }

  /** The call executes punishments. */
  predicate Punishes(s: State, call: Call) {
    && call.message.Execute? && call.message.proposalId in s.proposals
    && s.proposals[call.message.proposalId].content.PunishMembers?
  }

  /** Before every call of the run the change is still pending; nobody is punished, and the member stays. */
  predicate Undisturbed(s: State, calls: seq<Call>, a: Addr, change: PendingEscrow)
    decreases |calls|
  {
    calls == [] ||
    (&& s.circle.escrowPending == Some(change) && !Punishes(s, calls[0])
     && !(calls[0].sender == a && calls[0].message.LeaveTrustedCircle?)
     && Undisturbed(Step(s, calls[0]), calls[1..], a, change))
  }

  lemma CheckKeepsSecure(s: State, block: Block, next: State, a: Addr)
    requires R.CheckEffect(s, block, next) && Secure(s, a)
    ensures Secure(next, a)
  {
    hide R.BatchesChecked, R.Counted, R.NamedReady;
  }

  lemma MadeKeepsSecure(s: State, block: Block, sender: Addr, content: Content, others: Others, next: State, a: Addr)
    requires R.ProposalMade(s, block, sender, content, others, next) && Secure(s, a)
    ensures Secure(next, a)
  {
    hide R.CheckAccepted, R.CheckEffect, R.ContentAccepted, R.PassesEarly, Secure;
    var checked :| R.Prepared(s, block, checked) && R.Drafted(checked, block, sender, content, next);
    if block.height > 0 {
      CheckKeepsSecure(s, block, checked, a);
    }
    SecureIsMember(checked, a);
    DraftedRest(checked, block, sender, content, next);
    SameEntrySecure(checked, next, a);
  }

  lemma SameEntrySecure(s: State, next: State, a: Addr)
    requires Secure(s, a) && a in next.escrows && next.escrows[a] == s.escrows[a]
    requires next.circle.escrowAmount == s.circle.escrowAmount && next.circle.escrowPending == s.circle.escrowPending
    ensures Secure(next, a)
  {
  }

  lemma ExecutedKeepsSecure(s: State, call: Call, next: State, a: Addr)
    requires call.message.Execute? && !Punishes(s, call) && Secure(s, a) && s.circle.escrowPending.Some?
    requires R.ProposalExecuted(s, call.block, call.message.proposalId, call.message.others.denied, next)
    ensures Secure(next, a)
  {
    hide R.Counted;
    SameEntrySecure(s, next, a);
  }

  lemma DepositKeepsSecure(s: State, block: Block, sender: Addr, amount: nat, next: State, a: Addr)
    requires R.DepositAccepted(s, block, sender, amount) && R.DepositEffect(s, block, sender, amount, next)
    requires Secure(s, a)
    ensures Secure(next, a)
  {
    hide R.Counted;
    assert next.escrows[a] == R.AfterDeposit(s, block, sender, amount, a);
  }

  lemma TransitionKeepsSecure(s: State, call: Call, next: State, a: Addr)
    requires R.Transition(s, call, next) && Secure(s, a) && s.circle.escrowPending.Some? && !Punishes(s, call)
    requires !(call.sender == a && call.message.LeaveTrustedCircle?)
    ensures Secure(next, a)
  {
    hide Secure, R.DepositAccepted, R.DepositEffect, R.CheckAccepted, R.CheckEffect, R.ProposalMade, R.VoteAccepted,
        R.TallyTraps, R.WithVote, R.PassesEarly, R.ProposalExecuted, R.PointsTaken, R.Counted, R.ReturnEffect;
    match call.message
    case DepositEscrow(amount) => DepositKeepsSecure(s, call.block, call.sender, amount, next, a);
    case ReturnEscrow => ReturnKeepsSecure(s, call.block, call.sender, next, a);
    case Propose(content, others) => MadeKeepsSecure(s, call.block, call.sender, content, others, next, a);
    case CastVote(_, _, _) =>
      SecureIsMember(s, a);
      SameEntrySecure(s, next, a);
    case Execute(_, _) => ExecutedKeepsSecure(s, call, next, a);
    case Close(_) =>
      SecureIsMember(s, a);
      SameEntrySecure(s, next, a);
    case LeaveTrustedCircle =>
      SecureIsMember(s, a);
      SameEntrySecure(s, next, a);
    case CheckPending => CheckKeepsSecure(s, call.block, next, a);
  }

  lemma SecureIsMember(s: State, a: Addr)
    requires Secure(s, a)
    ensures a in s.escrows
  {
  }

  lemma ReturnKeepsSecure(s: State, block: Block, sender: Addr, next: State, a: Addr)
    requires R.ReturnAccepted(s, block, sender) && R.ReturnEffect(s, block, sender, next) && Secure(s, a)
    ensures Secure(next, a)
  {
  }

  /** Whoever has met both amounts still has after every run in which the change is pending and falls due:
      he is not demoted, unless he is punished or leaves. */
  lemma {:induction false} MetStaysMet(s: State, block: Block, calls: seq<Call>, a: Addr, change: PendingEscrow)
    requires Inv(s, block.Seconds()) && Indexed(s) && Ordered(block, calls) && Undisturbed(s, calls, a, change)
    requires Secure(s, a)
    ensures Secure(Run(s, calls), a)
    decreases |calls|
  {
    hide Inv, Indexed, Secure, Step, R.Transition;
    if calls == [] {
    } else {
      StepIsTransition(s, block, calls[0]);
      if R.Transition(s, calls[0], Step(s, calls[0])) {
        TransitionKeepsSecure(s, calls[0], Step(s, calls[0]), a);
      }
      MetStaysMet(Step(s, calls[0]), calls[0].block, calls[1..], a, change);
    }
  }

  /** The call completes its sender's escrow, or refunds a voter. */
  predicate Completes(s: State, call: Call, next: State) {
    && call.sender in s.escrows && call.sender in next.escrows
    && (if call.message.DepositEscrow? then
          s.escrows[call.sender].status.Pending? && !next.escrows[call.sender].status.Pending?
        else call.message.ReturnEscrow? && s.escrows[call.sender].status == Voting)
  }

  lemma CompletesIsSecure(s: State, call: Call, next: State)
    requires R.Transition(s, call, next) && Completes(s, call, next)
    ensures Secure(next, call.sender)
  {
    hide R.Counted;
    if call.message.DepositEscrow? {
      assert next.escrows[call.sender]
          == R.AfterDeposit(s, call.block, call.sender, call.message.amount, call.sender);
    }
  }

  /** Whoever completes his escrow, or is refunded, while a change of the escrow is pending, is not demoted
      when the change falls due, unless he is punished or leaves in between. */
  lemma CompletedEscrowSuffices(s: State, call: Call, calls: seq<Call>, change: PendingEscrow)
    requires Inv(s, call.block.Seconds()) && Indexed(s) && Handle(s, call).Ok? && Ordered(call.block, calls)
    requires Completes(s, call, Handle(s, call).value)
    requires Undisturbed(Handle(s, call).value, calls, call.sender, change)
    ensures
      var end := Run(Handle(s, call).value, calls);
      && call.sender in end.escrows
      && (end.escrows[call.sender].status == Voting || end.escrows[call.sender].status.PendingPaid?)
  {
    hide Inv, Indexed, Handle, Run, Ordered, Undisturbed, Completes, R.Transition;
    var next := Handle(s, call).value;
    HandleConforms(s, call, next);
    CompletesIsSecure(s, call, next);
    HandleKeeps(s, call);
    HandleKeepsIndex(s, call);
    MetStaysMet(next, call.block, calls, call.sender, change);
  }

  // ---------------------------------------------------------------- who leaves waits

  /** The call executes punishments of this member. */
  predicate PunishesMember(s: State, call: Call, a: Addr) {
    && Punishes(s, call)
    && var ps := s.proposals[call.message.proposalId].content.punishments;
       exists i :: 0 <= i < |ps| && ps[i].member == a
  }

  predicate Unpunished(s: State, calls: seq<Call>, a: Addr)
    decreases |calls|
  {
    calls == [] || (!PunishesMember(s, calls[0], a) && Unpunished(Step(s, calls[0]), calls[1..], a))
  }

  /** Leaving, with this escrow and this time to claim it. */
  predicate Waits(s: State, a: Addr, paid: nat, claimAt: nat) {
    a in s.escrows && s.escrows[a] == EscrowStatus(paid, Leaving(claimAt))
  }

  lemma {:induction false} OthersPunished(s: State, block: Block, id: nat, ps: seq<Punishment>, demoted: seq<Addr>,
                                          next: State, a: Addr)
    requires R.PunishedInTurn(s, block, id, ps, demoted, next) && a in s.escrows
    requires forall i :: 0 <= i < |ps| ==> ps[i].member != a
    ensures a in next.escrows && next.escrows[a] == s.escrows[a]
    decreases |ps|
  {
    hide R.PunishedBy;
    if ps == [] {
    } else {
      var middle, again :| R.PunishedBy(s, block, id, ps[0], again, middle)
        && (again ==> demoted != [] && demoted[0] == ps[0].member)
        && R.PunishedInTurn(middle, block, id, ps[1..], if again then demoted[1..] else demoted, next);
      OtherPunished(s, block, id, ps[0], again, middle, a);
      OthersPunished(middle, block, id, ps[1..], if again then demoted[1..] else demoted, next, a);
    }
  }

  lemma OtherPunished(s: State, block: Block, id: nat, p: Punishment, demoted: bool, next: State, a: Addr)
    requires R.PunishedBy(s, block, id, p, demoted, next) && a in s.escrows && p.member != a
    ensures a in next.escrows && next.escrows[a] == s.escrows[a]
  {
    hide R.Counted, R.Charges, R.PointsTaken;
  }

  lemma ExecutedKeepsWaiting(s: State, call: Call, next: State, a: Addr, paid: nat, claimAt: nat)
    requires call.message.Execute? && !PunishesMember(s, call, a) && Waits(s, a, paid, claimAt)
    requires R.ProposalExecuted(s, call.block, call.message.proposalId, call.message.others.denied, next)
    ensures Waits(next, a, paid, claimAt)
  {
    hide R.Counted, R.PunishedInTurn;
    var id, block := call.message.proposalId, call.block;
    var marked := s.(proposals := s.proposals[id := s.proposals[id].(status := Executed)]);
    if s.proposals[id].content.PunishMembers? {
      var ps := s.proposals[id].content.punishments;
      var middle, demoted :| R.PunishedInTurn(marked, block, id, ps, demoted, middle)
        && next == middle.(batches := if demoted == [] then marked.batches else
                             marked.batches[id := Batch(R.Now(block), |demoted|, false, demoted)]);
      OthersPunished(marked, block, id, ps, demoted, middle, a);
    }
  }

  lemma CheckKeepsWaiting(s: State, block: Block, next: State, a: Addr, paid: nat, claimAt: nat)
    requires R.CheckEffect(s, block, next) && Waits(s, a, paid, claimAt)
    ensures Waits(next, a, paid, claimAt)
  {
    hide R.BatchesChecked, R.Counted, R.NamedReady;
    assert next.escrows[a] == R.AfterCheck(s, block, a);
  }

  lemma MadeKeepsWaiting(s: State, block: Block, sender: Addr, content: Content, others: Others, next: State, a: Addr,
                         paid: nat, claimAt: nat)
    requires R.ProposalMade(s, block, sender, content, others, next) && Waits(s, a, paid, claimAt)
    ensures Waits(next, a, paid, claimAt)
  {
    hide R.CheckAccepted, R.CheckEffect, R.ContentAccepted, R.PassesEarly;
    var checked :| R.Prepared(s, block, checked) && R.Drafted(checked, block, sender, content, next);
    DraftedRest(checked, block, sender, content, next);
    if block.height > 0 {
      CheckKeepsWaiting(s, block, checked, a, paid, claimAt);
    }
  }

  lemma DepositKeepsWaiting(s: State, block: Block, sender: Addr, amount: nat, next: State, a: Addr, paid: nat,
                            claimAt: nat)
    requires R.DepositAccepted(s, block, sender, amount) && R.DepositEffect(s, block, sender, amount, next)
    requires Waits(s, a, paid, claimAt)
    ensures Waits(next, a, paid, claimAt)
  {
    hide R.Counted, R.PaysUp, R.InTurn;
    assert next.escrows[a] == R.AfterDeposit(s, block, sender, amount, a);
  }

  lemma ReturnKeepsWaiting(s: State, block: Block, sender: Addr, next: State, a: Addr, paid: nat, claimAt: nat)
    requires R.ReturnAccepted(s, block, sender) && R.ReturnEffect(s, block, sender, next)
    requires Waits(s, a, paid, claimAt) && (paid == 0 || block.Seconds() < claimAt)
    ensures Waits(next, a, paid, claimAt)
  {
    hide R.Meets;
  }

  lemma LeftKeepsWaiting(s: State, block: Block, sender: Addr, next: State, a: Addr, paid: nat, claimAt: nat)
    requires R.HasLeft(s, block, sender, next) && Waits(s, a, paid, claimAt)
    ensures Waits(next, a, paid, claimAt)
  {
    hide R.Counted, R.PointsTaken;
  }

  lemma TransitionKeepsWaiting(s: State, call: Call, next: State, a: Addr, paid: nat, claimAt: nat)
    requires R.Transition(s, call, next) && Waits(s, a, paid, claimAt) && !PunishesMember(s, call, a)
    requires paid == 0 || call.block.Seconds() < claimAt
    ensures Waits(next, a, paid, claimAt)
  {
    hide R.DepositAccepted, R.DepositEffect, R.ReturnEffect, R.ReturnAccepted, R.CheckAccepted, R.CheckEffect,
        R.ProposalMade, R.VoteAccepted, R.TallyTraps, R.WithVote, R.PassesEarly, R.ProposalExecuted, R.HasLeft,
        PunishesMember, Block.Seconds;
    match call.message
    case DepositEscrow(amount) => DepositKeepsWaiting(s, call.block, call.sender, amount, next, a, paid, claimAt);
    case ReturnEscrow => ReturnKeepsWaiting(s, call.block, call.sender, next, a, paid, claimAt);
    case Propose(content, others) =>
      MadeKeepsWaiting(s, call.block, call.sender, content, others, next, a, paid, claimAt);
    case CastVote(_, _, _) =>
    case Execute(_, _) => ExecutedKeepsWaiting(s, call, next, a, paid, claimAt);
    case Close(_) =>
    case LeaveTrustedCircle => LeftKeepsWaiting(s, call.block, call.sender, next, a, paid, claimAt);
    case CheckPending => CheckKeepsWaiting(s, call.block, next, a, paid, claimAt);
  }

  /** Until the time to claim it has come, nothing touches the escrow of who is leaving but a punishment. If
      nothing is left of it, that goes for ever: he is never cleared out. */
  lemma {:induction false} RunKeepsWaiting(s: State, block: Block, calls: seq<Call>, a: Addr, paid: nat, claimAt: nat)
    requires Inv(s, block.Seconds()) && Indexed(s) && Ordered(block, calls) && Unpunished(s, calls, a)
    requires Waits(s, a, paid, claimAt) && (paid == 0 || LastBlock(block, calls).Seconds() < claimAt)
    ensures Waits(Run(s, calls), a, paid, claimAt)
    decreases |calls|
  {
    hide Inv, Indexed, Waits, Step, R.Transition, Block.Seconds;
    if calls == [] {
    } else {
      OrderedLast(calls[0].block, calls[1..]);
      SecondsMonotone(calls[0].block, LastBlock(block, calls));
      StepIsTransition(s, block, calls[0]);
      if R.Transition(s, calls[0], Step(s, calls[0])) {
        TransitionKeepsWaiting(s, calls[0], Step(s, calls[0]), a, paid, claimAt);
      }
      RunKeepsWaiting(Step(s, calls[0]), calls[0].block, calls[1..], a, paid, claimAt);
    }
  }

  /** Who leaves with an escrow, and is not punished, can take it back exactly when two voting periods have
      passed, by the rules in force when he left; and then all of it, and he is gone. */
  lemma LeaverRefundedIff(s: State, block: Block, a: Addr, calls: seq<Call>, later: Block)
    requires Inv(s, block.Seconds()) && Indexed(s) && Handle(s, Call(block, a, LeaveTrustedCircle)).Ok?
    requires a in s.escrows && s.escrows[a].paid > 0
    requires
      var next := Handle(s, Call(block, a, LeaveTrustedCircle)).value;
      Ordered(block, calls) && Unpunished(next, calls, a) && LastBlock(block, calls).NotAfter(later)
    requires LastBlock(block, calls).Seconds() < block.Seconds() + 2 * s.circle.rules.votingPeriod * 86_400
    ensures
      var end := Run(Handle(s, Call(block, a, LeaveTrustedCircle)).value, calls);
      var claim := Handle(end, Call(later, a, ReturnEscrow));
      && (claim.Ok? <==> block.Seconds() + 2 * s.circle.rules.votingPeriod * 86_400 <= later.Seconds())
      && (claim.Ok? ==>
            && claim.value.escrows == end.escrows - {a} && claim.value.members == end.members - {a}
            && claim.value.ledger == end.ledger.(refunded := end.ledger.refunded + s.escrows[a].paid))
  {
    hide Inv, Indexed, Handle, Run, Ordered, Unpunished, R.Transition, Block.Seconds;
    var call := Call(block, a, LeaveTrustedCircle);
    var next, claimAt := Handle(s, call).value, block.Seconds() + 2 * s.circle.rules.votingPeriod * 86_400;
    HandleConforms(s, call, next);
    HandleKeeps(s, call);
    HandleKeepsIndex(s, call);
    LeaverWaits(s, block, a, next);
    RunKeepsWaiting(next, block, calls, a, s.escrows[a].paid, claimAt);
    ClaimsIff(Run(next, calls), later, a, s.escrows[a].paid, claimAt);
  }

  lemma LeaverWaits(s: State, block: Block, a: Addr, next: State)
    requires Inv(s, block.Seconds()) && R.Transition(s, Call(block, a, LeaveTrustedCircle), next)
    requires a in s.escrows && s.escrows[a].paid > 0
    ensures Waits(next, a, s.escrows[a].paid, block.Seconds() + 2 * s.circle.rules.votingPeriod * 86_400)
  {
    hide R.Counted, R.PointsTaken, Agreement, BatchBounds, Ids, PendingFresh, Checked, Conserved;
  }

  lemma ClaimsIff(s: State, block: Block, a: Addr, paid: nat, claimAt: nat)
    requires Waits(s, a, paid, claimAt) && paid > 0
    ensures
      var claim := Handle(s, Call(block, a, ReturnEscrow));
      && (claim.Ok? <==> claimAt <= block.Seconds())
      && (claim.Ok? ==>
            && claim.value.escrows == s.escrows - {a} && claim.value.members == s.members - {a}
            && claim.value.ledger == s.ledger.(refunded := s.ledger.refunded + paid))
  {
  }
}
