/**
 When a proposal is executed: exactly if its approval was stored while votes came in. What its tally
 says at expiry is never looked at.
 */
module CircleApproval {
  import opened Base
  import opened Voting
  import opened Circle
  import opened CircleInvariant
  import opened CirclePromotion
  import opened CircleRuns
  import opened CircleEffects
  import opened CircleIndex

  // ---------------------------------------------------------------- the status over a step and a run

  /** What becomes of a proposal in one step. */
  ghost predicate StatusStep(s: State, call: Call, next: State, id: nat)
    requires id in s.proposals
  {
    var p := s.proposals[id];
    && id in next.proposals && next.proposals[id].content == p.content && next.proposals[id].expires == p.expires
    && (p.status == Executed ==> next.proposals[id].status == Executed)
    && (p.status == Passed ==> Approved(next.proposals[id]))
    && (p.IsExpired(call.block) && !Approved(p) ==> !Approved(next.proposals[id]))
    && (p.status != Executed && next.proposals[id].status == Executed ==>
          p.status == Passed && call.message.Execute? && call.message.proposalId == id && Handle(s, call).Ok?)
  }

  lemma StepStatus(s: State, call: Call, id: nat)
    requires Indexed(s) && id in s.proposals
    ensures StatusStep(s, call, Step(s, call), id)
  {
    hide Handle, Indexed, AllCarried;
    if Handle(s, call).Ok? {
      HandleFrames(s, call);
      var next := Handle(s, call).value;
      if call.message.Propose? {
        IdsCounted(s, id);
      } else if call.message.Execute? {
        var marked := Marked(s, call.message.proposalId);
        CarriedStatus(marked, next, call.block, id);
      } else {
        CarriedStatus(s, next, call.block, id);
      }
    }
  }

  lemma CarriedStatus(s: State, next: State, block: Block, id: nat)
    requires Framed(s, next, block) && id in s.proposals
    ensures id in next.proposals && Carries(s.proposals[id], next.proposals[id], block)
  {
  }

  lemma IdsCounted(s: State, id: nat)
    requires Indexed(s) && id in s.proposals
    ensures id <= s.proposalCount
  {
  }

  lemma StepKeepsIndex(s: State, call: Call)
    requires Indexed(s)
    ensures Indexed(Step(s, call))
  {
    hide Indexed, Handle;
    HandleKeepsIndex(s, call);
  }

  lemma ExpiredLater(p: Proposal, block: Block, later: Block)
    requires p.IsExpired(block) && block.NotAfter(later)
    ensures p.IsExpired(later)
  {
  }

  /** Expired without approval, a proposal is never approved. */
  lemma {:induction false} NeverApprovedAfterExpiry(s: State, block: Block, calls: seq<Call>, id: nat)
    requires Indexed(s) && Ordered(block, calls)
    requires id in s.proposals && s.proposals[id].IsExpired(block) && !Approved(s.proposals[id])
    ensures id in Run(s, calls).proposals && !Approved(Run(s, calls).proposals[id])
    decreases |calls|
  {
    hide Indexed, Step;
    if calls == [] {
    } else {
      StepStatus(s, calls[0], id);
      StepKeepsIndex(s, calls[0]);
      ExpiredLater(s.proposals[id], block, calls[0].block);
      NeverApprovedAfterExpiry(Step(s, calls[0]), calls[0].block, calls[1..], id);
    }
  }

  lemma {:induction false} RunStatus(s: State, calls: seq<Call>, id: nat)
    requires Indexed(s) && id in s.proposals
    ensures Indexed(Run(s, calls)) && id in Run(s, calls).proposals
    ensures Run(s, calls).proposals[id].content == s.proposals[id].content
    ensures s.proposals[id].status == Executed ==> Run(s, calls).proposals[id].status == Executed
    ensures s.proposals[id].status == Passed ==> Approved(Run(s, calls).proposals[id])
    decreases |calls|
  {
    hide Indexed, Step;
    if calls == [] {
    } else {
      StepStatus(s, calls[0], id);
      StepKeepsIndex(s, calls[0]);
      RunStatus(Step(s, calls[0]), calls[1..], id);
    }
  }

  // ---------------------------------------------------------------- execution

  const NO_CALLS: seq<Call> := []

  /** The run executes the proposal. */
  ghost predicate ExecutedBy(s: State, calls: seq<Call>, id: nat) {
    var end := Run(s, calls);
    id in end.proposals && end.proposals[id].status == Executed
  }

  /** Whether the content of a proposal goes through in a block, for some deny list. */
  ghost predicate ContentExecutes(s: State, block: Block, id: nat) {
    && id in s.proposals
    && !(s.proposals[id].content.EditTrustedCircle? && s.circle.editDisabled)
    && exists denied :: ExecuteContent(Marked(s, id), block, id, s.proposals[id].content, denied).Ok?
  }

  /** At some later point of some run the content goes through. */
  ghost predicate CanExecute(s: State, block: Block, id: nat) {
    exists calls, next ::
      Ordered(block, calls) && LastBlock(block, calls).NotAfter(next) && ContentExecutes(Run(s, calls), next, id)
  }

  lemma ExecutionIsContent(s: State, call: Call, id: nat)
    requires id in s.proposals && call.message.Execute? && call.message.proposalId == id && Handle(s, call).Ok?
    ensures ContentExecutes(s, call.block, id)
  {
    hide ExecuteContent;
    assert ExecuteContent(Marked(s, id), call.block, id, s.proposals[id].content, call.message.others.denied).Ok?;
  }

  lemma FrontOfRun(s: State, block: Block, call: Call, rest: seq<Call>)
    requires block.NotAfter(call.block) && Ordered(call.block, rest)
    ensures Ordered(block, [call] + rest) && LastBlock(block, [call] + rest) == LastBlock(call.block, rest)
    ensures Run(s, [call] + rest) == Run(Step(s, call), rest)
  {
    hide Step;
    assert ([call] + rest)[1..] == rest;
  }

  /** Where a run executes a passed proposal, its content goes through. */
  lemma {:induction false} ExecutionFound(s: State, block: Block, calls: seq<Call>, id: nat)
    requires Indexed(s) && Ordered(block, calls) && id in s.proposals && s.proposals[id].status == Passed
    requires ExecutedBy(s, calls, id)
    ensures CanExecute(s, block, id)
    decreases |calls|
  {
    hide Indexed, Step, Handle, ContentExecutes;
    if calls == [] {
    } else {
      var call := calls[0];
      StepStatus(s, call, id);
      StepKeepsIndex(s, call);
      if Step(s, call).proposals[id].status == Executed {
        ExecutionIsContent(s, call, id);
        assert Ordered(block, NO_CALLS) && LastBlock(block, NO_CALLS).NotAfter(call.block) && Run(s, NO_CALLS) == s;
      } else {
        ExecutionFound(Step(s, call), call.block, calls[1..], id);
        var rest, next :| Ordered(call.block, rest) && LastBlock(call.block, rest).NotAfter(next)
                          && ContentExecutes(Run(Step(s, call), rest), next, id);
        FrontOfRun(s, block, call, rest);
      }
    }
  }

  lemma {:induction false} RunConcat(s: State, one: seq<Call>, two: seq<Call>)
    ensures Run(s, one + two) == Run(Run(s, one), two)
    decreases |one|
  {
    hide Step;
    if one == [] {
      assert one + two == two;
    } else {
      assert (one + two)[1..] == one[1..] + two;
      RunConcat(Step(s, one[0]), one[1..], two);
    }
  }

  /** Where the content of a passed proposal goes through, executing it is all it takes. */
  lemma ExecutionMade(s: State, block: Block, calls: seq<Call>, next: Block, id: nat) returns (all: seq<Call>)
    requires Indexed(s) && id in s.proposals && s.proposals[id].status == Passed
    requires Ordered(block, calls) && LastBlock(block, calls).NotAfter(next) && ContentExecutes(Run(s, calls), next, id)
    ensures Ordered(block, all) && ExecutedBy(s, all, id)
  {
    hide Indexed, Run;
    var middle := Run(s, calls);
    RunStatus(s, calls, id);
    if middle.proposals[id].status == Executed {
      all := calls;
    } else {
      var denied :| ExecuteContent(Marked(middle, id), next, id, middle.proposals[id].content, denied).Ok?;
      var call := Call(next, 0, Execute(id, Others(denied, {})));
      all := calls + [call];
      RunConcat(s, calls, [call]);
      OrderedConcat(block, calls, [call]);
      ExecutesNow(middle, call, id);
    }
  }

  lemma ExecutesNow(s: State, call: Call, id: nat)
    requires Indexed(s) && id in s.proposals && s.proposals[id].status == Passed
    requires call.message.Execute? && call.message.proposalId == id
    requires !(s.proposals[id].content.EditTrustedCircle? && s.circle.editDisabled)
    requires ExecuteContent(Marked(s, id), call.block, id, s.proposals[id].content, call.message.others.denied).Ok?
    ensures ExecutedBy(s, [call], id)
  {
    hide ExecuteContent, Indexed;
    MarkedKeepsIndex(s, id);
    ExecuteContentFramed(Marked(s, id), call.block, id, s.proposals[id].content, call.message.others.denied);
    assert [call][1..] == [];
    assert Run(s, [call]) == Step(s, call);
  }

  /** After its expiry a proposal is executed in some run if and only if it was executed before, or its
      approval was stored before and its content goes through at some point of a run. A tally that
      passes only at expiry does not count. */
  lemma ExecutedAfterExpiryIff(s: State, block: Block, id: nat)
    requires Indexed(s) && id in s.proposals && s.proposals[id].IsExpired(block)
    ensures (exists calls :: Ordered(block, calls) && ExecutedBy(s, calls, id)) <==>
      s.proposals[id].status == Executed || (s.proposals[id].status == Passed && CanExecute(s, block, id))
  {
    hide Indexed, Run, ContentExecutes;
    if exists calls :: Ordered(block, calls) && ExecutedBy(s, calls, id) {
      var calls :| Ordered(block, calls) && ExecutedBy(s, calls, id);
      if !Approved(s.proposals[id]) {
        NeverApprovedAfterExpiry(s, block, calls, id);
      } else if s.proposals[id].status == Passed {
        ExecutionFound(s, block, calls, id);
      }
    }
    if s.proposals[id].status == Executed {
      AlreadyExecuted(s, block, id);
    }
    if s.proposals[id].status == Passed && CanExecute(s, block, id) {
      var calls, next :| Ordered(block, calls) && LastBlock(block, calls).NotAfter(next)
                         && ContentExecutes(Run(s, calls), next, id);
      var all := ExecutionMade(s, block, calls, next, id);
    }
  }

  lemma AlreadyExecuted(s: State, block: Block, id: nat)
    requires id in s.proposals && s.proposals[id].status == Executed
    ensures Ordered(block, NO_CALLS) && ExecutedBy(s, NO_CALLS, id)
  {
  }

  /** Voting members can be added at any time once that was approved: their execution needs no luck. */
  lemma ApprovedAdmissionExecutes(s: State, block: Block, id: nat)
    requires Inv(s, block.Seconds()) && id in s.proposals && s.proposals[id].status == Passed
    requires s.proposals[id].content.AddVotingMembers?
    ensures CanExecute(s, block, id)
  {
    hide Inv, AddVoting, Fresh;
    MarkExecuted(s, block.Seconds(), id);
    AddVotingKeeps(Marked(s, id), block, id, s.proposals[id].content.voters, {});
    assert ExecuteContent(Marked(s, id), block, id, s.proposals[id].content, {}).Ok?;
    assert Ordered(block, NO_CALLS) && LastBlock(block, NO_CALLS) == block && Run(s, NO_CALLS) == s;
    assert ContentExecutes(Run(s, NO_CALLS), block, id);
  }

  /** An approval that comes only with expiry is lost: the proposal passes by its tally, but it is
      executed in no run, and anybody can have it stored as rejected. */
  lemma ApprovalAtExpiryIsLost(s: State, block: Block, sender: Addr, id: nat, calls: seq<Call>)
    requires Indexed(s) && id in s.proposals && s.proposals[id].status == Open && s.proposals[id].IsExpired(block)
    requires s.proposals[id].IsPassed(block) == Ok(true) && Ordered(block, calls)
    ensures !ExecutedBy(s, calls, id)
    ensures
      var r := Handle(s, Call(block, sender, Close(id)));
      r.Ok? && r.value.proposals[id].status == Rejected
  {
    hide Indexed, Run, VotesNeeded;
    NeverApprovedAfterExpiry(s, block, calls, id);
  }

  /** A proposal whose rules do not let it end early is executed in no run, whatever the votes: its
      status is stored only while votes come in, and execution goes by the stored status. */
  lemma NeverExecutedWithoutEarlyEnd(block: Block, sender: Addr, amount: nat, msg: InstantiateMsg, denied: set<Addr>,
                                     calls: seq<Call>, next: Block, id: nat)
    requires Instantiate(sender, amount, msg, denied).Ok? && Ordered(block, calls)
    ensures
      var s := Run(Instantiate(sender, amount, msg, denied).value, calls);
      id in s.proposals && !s.proposals[id].rules.allowEndEarly ==>
        s.proposals[id].status != Executed && ExecuteProposal(s, next, id, denied).Err?
  {
    hide Indexed, Instantiate, Run, ExecuteContent;
    ReachableIndexed(block, sender, amount, msg, denied, calls);
  }

  // ---------------------------------------------------------------- stored and recomputed status

  /** Stored as open, though recomputing its status would approve it. */
  predicate Drifted(p: Proposal, block: Block) {
    p.status == Open && !p.IsExpired(block) && p.IsPassed(block) == Ok(true)
  }

  /** The tally passes early if it is measured against so many points. */
  predicate PassesAmong(p: Proposal, points: nat) {
    && p.rules.allowEndEarly && p.votes.abstain <= points
    && p.votes.Total() >= VotesNeeded(points, p.rules.quorum)
    && p.votes.yes >= VotesNeeded(points - p.votes.abstain, p.rules.threshold)
  }

  lemma DriftedIff(p: Proposal, block: Block)
    ensures Drifted(p, block) <==> p.status == Open && !p.IsExpired(block) && PassesAmong(p, p.totalPoints)
  {
    hide VotesNeeded;
  }

  /** After a voter leaves, an open proposal is stored differently from what recomputing gives exactly if
      its tally passes with one point fewer, where the leaver's point is taken, or passed before. */
  lemma LeaveDriftsIff(s: State, block: Block, sender: Addr, id: nat)
    requires Indexed(s) && sender in s.escrows && s.escrows[sender].status == Voting && Leave(s, block, sender).Ok?
    requires id in s.proposals
    ensures id in Leave(s, block, sender).value.proposals
    ensures
      var p := s.proposals[id];
      Drifted(Leave(s, block, sender).value.proposals[id], block) <==>
        && p.status == Open && !p.IsExpired(block)
        && PassesAmong(p, if Adjusts(s, block.Seconds(), sender, id) && p.totalPoints > 0 then p.totalPoints - 1
                          else p.totalPoints)
  {
    hide Indexed, Leave, VotesNeeded, Shadowed;
    LeaveAdjustsExactly(s, block, sender);
    DriftedIff(Leave(s, block, sender).value.proposals[id], block);
  }

  ghost predicate NoDrift(s: State, block: Block) {
    forall id :: id in s.proposals ==> !Drifted(s.proposals[id], block)
  }

  lemma NoDriftLater(s: State, block: Block, later: Block)
    requires NoDrift(s, block) && block.NotAfter(later)
    ensures NoDrift(s, later)
  {
    hide VotesNeeded;
    forall id | id in s.proposals ensures !Drifted(s.proposals[id], later) {
      assert !Drifted(s.proposals[id], block);
    }
  }

  lemma UpdatedNotDrifted(p: Proposal, block: Block)
    requires p.UpdateStatus(block).Ok?
    ensures !Drifted(p.UpdateStatus(block).value, block) || p.status != Open
    ensures p.status != Open ==> p.UpdateStatus(block).value == p
  {
    hide VotesNeeded;
  }

  lemma ProposeNoDrift(s: State, block: Block, sender: Addr, content: Content, others: Others)
    requires NoDrift(s, block) && ProposeContent(s, block, sender, content, others).Ok?
    ensures NoDrift(ProposeContent(s, block, sender, content, others).value, block)
  {
    hide Drifted, Proposal.UpdateStatus, ExpirySecond;
    ProposeFrame(s, block, sender, content, others);
    NewNotDrifted(s, block, sender, content, others);
  }

  lemma NewNotDrifted(s: State, block: Block, sender: Addr, content: Content, others: Others)
    requires ProposeContent(s, block, sender, content, others).Ok?
    ensures
      var next := ProposeContent(s, block, sender, content, others).value;
      s.proposalCount + 1 in next.proposals && !Drifted(next.proposals[s.proposalCount + 1], block)
  {
    hide CheckAllPending, ValidateContent, Proposal.UpdateStatus, Drifted;
    CheckAllUntouched(s, block);
    var checked := if block.height > 0 then CheckAllPending(s, block).value else s;
    var rules, power := checked.circle.rules, checked.members[sender];
    var expires := block.time + rules.PeriodSeconds() * NANOS_PER_SECOND;
    var votes := NO_VOTES.AddVote(Yes, power);
    UpdatedNotDrifted(Proposal(block.height, expires, content, Open, rules, checked.total, votes), block);
  }

  lemma VoteNoDrift(s: State, block: Block, sender: Addr, id: nat, vote: Vote, power: nat)
    requires NoDrift(s, block) && VoteOn(s, block, sender, id, vote, power).Ok?
    ensures NoDrift(VoteOn(s, block, sender, id, vote, power).value, block)
  {
    hide VotesNeeded;
    var p := s.proposals[id];
    UpdatedNotDrifted(p.(votes := p.votes.AddVote(vote, power)), block);
  }

  /** Only leaving, on one's own or kicked out, makes the difference: every vote recomputes the status. */
  lemma StepNoDrift(s: State, call: Call)
    requires NoDrift(s, call.block) && !call.message.LeaveTrustedCircle? && !call.message.Execute?
    ensures NoDrift(Step(s, call), call.block)
  {
    hide Deposit, ProposeContent, VoteOn, CheckAllPending, Drifted;
    if Handle(s, call).Ok? {
      match call.message
      case DepositEscrow(amount) => DepositUntouched(s, call.block, call.sender, amount);
      case ReturnEscrow =>
      case Propose(content, others) => ProposeNoDrift(s, call.block, call.sender, content, others);
      case CastVote(id, vote, power) => VoteNoDrift(s, call.block, call.sender, id, vote, power);
      case Close(id) => ClosedNotDrifted(s.proposals[id].(status := Rejected), call.block);
      case CheckPending => CheckAllUntouched(s, call.block);
    }
  }

  lemma ClosedNotDrifted(p: Proposal, block: Block)
    requires p.status != Open
    ensures !Drifted(p, block)
  {
  }

  /** In a run in which nobody leaves and nothing is executed, the stored status is the recomputed one. */
  lemma {:induction false} RunNoDrift(s: State, block: Block, calls: seq<Call>)
    requires NoDrift(s, block) && Ordered(block, calls)
    requires forall i :: 0 <= i < |calls| ==> !calls[i].message.LeaveTrustedCircle? && !calls[i].message.Execute?
    ensures NoDrift(Run(s, calls), LastBlock(block, calls))
    decreases |calls|
  {
    hide NoDrift, Step;
    if calls == [] {
    } else {
      NoDriftLater(s, block, calls[0].block);
      StepNoDrift(s, calls[0]);
      RunNoDrift(Step(s, calls[0]), calls[0].block, calls[1..]);
    }
  }
}
