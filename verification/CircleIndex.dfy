/**
 The index of proposals by expiry, which a leaving voter's points are taken from. It keeps one
 proposal for each second, the one made last.
 */
module CircleIndex {
  import opened Base
  import opened Sums
  import opened Voting
  import opened Circle
  import opened CircleInvariant
  import opened CirclePromotion
  import opened CircleGovernance
  import opened CircleRuns
  import opened CircleEffects

  // ---------------------------------------------------------------- the invariant of the index

  function ExpirySecond(p: Proposal): nat {
    p.expires / NANOS_PER_SECOND
  }

  /** The index lists stored proposals, each under its second, and for each proposal one at least as
      late in the order of making. */
  ghost predicate Indexed(s: State) {
    && (forall k :: k in s.byExpiry ==> s.byExpiry[k] in s.proposals && ExpirySecond(s.proposals[s.byExpiry[k]]) == k)
    && (forall id :: id in s.proposals ==>
          id <= s.proposalCount
          && ExpirySecond(s.proposals[id]) in s.byExpiry && id <= s.byExpiry[ExpirySecond(s.proposals[id])])
  }

  /** Approved, and perhaps executed. */
  predicate Approved(p: Proposal) {
    p.status == Passed || p.status == Executed
  }

  /** A proposal keeps its content, expiry and rules. It stays approved, or not executed, as it was; it is
      newly approved only if it may end early and has not expired. */
  predicate Carries(p: Proposal, later: Proposal, block: Block) {
    && later.content == p.content && later.expires == p.expires && later.rules == p.rules
    && (p.status == Passed ==> later.status == Passed)
    && (later.status == Executed <==> p.status == Executed)
    && (Approved(later) ==> Approved(p) || (p.rules.allowEndEarly && !p.IsExpired(block)))
  }

  ghost predicate AllCarried(before: map<nat, Proposal>, after: map<nat, Proposal>, block: Block) {
    && before.Keys == after.Keys
    && forall id :: id in before ==> Carries(before[id], after[id], block)
  }

  /** No proposal is made, and each is carried on. */
  ghost predicate Framed(s: State, next: State, block: Block) {
    && next.byExpiry == s.byExpiry && next.proposalCount == s.proposalCount
    && AllCarried(s.proposals, next.proposals, block)
  }

  /** Only proposals that may end early are ever approved. */
  ghost predicate EarlyOnly(s: State) {
    forall id :: id in s.proposals && Approved(s.proposals[id]) ==> s.proposals[id].rules.allowEndEarly
  }

  /** Of everything that concerns proposals nothing changes. */
  ghost predicate Untouched(s: State, next: State) {
    && next.byExpiry == s.byExpiry && next.proposalCount == s.proposalCount
    && next.proposals == s.proposals && next.ballots == s.ballots
  }

  lemma FramedKeepsIndex(s: State, next: State, block: Block)
    requires Framed(s, next, block)
    ensures Indexed(s) ==> Indexed(next)
    ensures EarlyOnly(s) ==> EarlyOnly(next)
  {
  }

  // ---------------------------------------------------------------- what leaves the index alone

  lemma {:induction false} ConvertEachUntouched(s: State, addrs: seq<Addr>)
    ensures ConvertEach(s, addrs).Ok? ==> Untouched(s, ConvertEach(s, addrs).value.0)
    ensures ConvertEach(s, addrs).Ok? ==> ConvertEach(s, addrs).value.0.circle == s.circle
    decreases |addrs|
  {
    if addrs == [] {
    } else {
      var r := ConvertIfPaid(s, addrs[0]);
      if r.Ok? {
        ConvertEachUntouched(r.value.0, addrs[1..]);
      }
    }
  }

  lemma DepositUntouched(s: State, block: Block, sender: Addr, amount: nat)
    ensures Deposit(s, block, sender, amount).Ok? ==> Untouched(s, Deposit(s, block, sender, amount).value)
  {
    hide ConvertEach;
    if sender in s.escrows && s.escrows[sender].status.Pending? {
      var id := s.escrows[sender].status.proposalId;
      if id in s.batches {
        var e := s.escrows[sender].(paid := s.escrows[sender].paid + amount);
        var paid := s.(escrows := s.escrows[sender := e.(status := PendingPaid(id))],
                       ledger := s.ledger.(deposited := s.ledger.deposited + amount));
        ConvertEachUntouched(paid, s.batches[id].members);
      }
    }
  }

  lemma {:induction false} DemoteEachUntouched(s: State, id: nat, addrs: seq<Addr>)
    ensures DemoteEach(s, id, addrs).Ok? ==>
      Untouched(s, DemoteEach(s, id, addrs).value) && DemoteEach(s, id, addrs).value.circle == s.circle
    decreases |addrs|
  {
    if addrs == [] {
    } else if addrs[0] in s.escrows {
      var escrow := s.escrows[addrs[0]].(status := MemberStatus.Pending(id));
      var r := TakeVote(s.(escrows := s.escrows[addrs[0] := escrow]), addrs[0]);
      if r.Ok? {
        DemoteEachUntouched(r.value, id, addrs[1..]);
      }
    }
  }

  lemma {:induction false} PromoteEachUntouched(s: State, addrs: seq<Addr>)
    ensures Untouched(s, PromoteEach(s, addrs)) && PromoteEach(s, addrs).circle == s.circle
    decreases |addrs|
  {
    if addrs == [] {
    } else if addrs[0] in s.escrows && s.escrows[addrs[0]].status.Pending? {
      var e := s.escrows[addrs[0]].(status := PendingPaid(s.escrows[addrs[0]].status.proposalId));
      PromoteEachUntouched(s.(escrows := s.escrows[addrs[0] := e]), addrs[1..]);
    }
  }

  lemma {:induction false} ConvertBatchesUntouched(s: State, ids: seq<nat>)
    ensures ConvertBatches(s, ids).Ok? ==>
      Untouched(s, ConvertBatches(s, ids).value) && ConvertBatches(s, ids).value.circle == s.circle
    decreases |ids|
  {
    if ids == [] {
    } else if ids[0] in s.batches {
      ConvertEachUntouched(s, s.batches[ids[0]].members);
      var r := ConvertAllPaid(s, ids[0], s.batches[ids[0]]);
      if r.Ok? {
        ConvertBatchesUntouched(r.value, ids[1..]);
      }
    }
  }

  /** Checking the pending changes makes no proposal and changes no rules. */
  lemma CheckAllUntouched(s: State, block: Block)
    ensures CheckAllPending(s, block).Ok? ==>
      Untouched(s, CheckAllPending(s, block).value) && CheckAllPending(s, block).value.circle.rules == s.circle.rules
  {
    hide DemoteEach, PromoteEach, ConvertBatches, Ascending, CreateBatch;
    EscrowUntouched(s, block);
    var r := CheckPendingEscrow(s, block);
    if r.Ok? {
      ConvertBatchesUntouched(r.value, ReadyBatches(r.value.batches, block.Seconds()));
    }
  }

  lemma EscrowUntouched(s: State, block: Block)
    ensures CheckPendingEscrow(s, block).Ok? ==>
      Untouched(s, CheckPendingEscrow(s, block).value)
      && CheckPendingEscrow(s, block).value.circle.rules == s.circle.rules
  {
    hide DemoteEach, PromoteEach, Ascending;
    if s.circle.escrowPending.Some? {
      var p := s.circle.escrowPending.value;
      DemoteEachUntouched(s, p.proposalId, BelowEscrowVoters(s.escrows, p.amount));
      PromoteEachUntouched(s, PaidPending(s.escrows, p.amount));
    }
  }

  lemma {:induction false} AddNonVotingUntouched(s: State, addrs: seq<Addr>)
    ensures Untouched(s, AddNonVoting(s, addrs))
    decreases |addrs|
  {
    if addrs == [] {
    } else {
      if addrs[0] in s.members {
        AddNonVotingUntouched(s, addrs[1..]);
      } else {
        AddNonVotingUntouched(Put(s, addrs[0], EscrowStatus(0, NonVoting)), addrs[1..]);
      }
    }
  }

  lemma {:induction false} RemoveNonVotingUntouched(s: State, addrs: seq<Addr>)
    ensures RemoveNonVoting(s, addrs).Ok? ==> Untouched(s, RemoveNonVoting(s, addrs).value)
    ensures RemoveNonVoting(s, addrs) != Err(MissingProposal)
    decreases |addrs|
  {
    if addrs == [] {
    } else {
      if addrs[0] !in s.escrows {
        RemoveNonVotingUntouched(s, addrs[1..]);
      } else {
        RemoveNonVotingUntouched(s.(members := s.members - {addrs[0]}, escrows := s.escrows - {addrs[0]}), addrs[1..]);
      }
    }
  }

  lemma {:induction false} AddPendingUntouched(s: State, id: nat, addrs: seq<Addr>)
    ensures Untouched(s, AddPending(s, id, addrs))
    decreases |addrs|
  {
    if addrs == [] {
    } else {
      if addrs[0] in s.escrows && s.escrows[addrs[0]].status != NonVoting {
        AddPendingUntouched(s, id, addrs[1..]);
      } else {
        AddPendingUntouched(Put(s, addrs[0], EscrowStatus(0, MemberStatus.Pending(id))), id, addrs[1..]);
      }
    }
  }

  // ---------------------------------------------------------------- leaving and being punished

  lemma ListedIsStored(s: State, now: nat)
    requires Indexed(s)
    ensures forall i :: 0 <= i < |OpenProposalIds(s.byExpiry, now)| ==>
        OpenProposalIds(s.byExpiry, now)[i] in s.proposals
  {
    hide Ascending;
    var keys := Ascending(set k | k in s.byExpiry && now < k);
    forall i | 0 <= i < |keys| ensures keys[i] in s.byExpiry && s.byExpiry[keys[i]] in s.proposals {
      assert keys[i] in keys;
    }
  }

  /** Of listed stored proposals none is missing. */
  lemma {:induction false} StoredNotMissing(proposals: map<nat, Proposal>, ballots: map<(nat, Addr), Ballot>,
                                            leaver: Addr, ids: seq<nat>)
    requires forall i :: 0 <= i < |ids| ==> ids[i] in proposals
    ensures AdjustForLeaver(proposals, ballots, leaver, ids) != Err(MissingProposal)
    decreases |ids|
  {
    if ids == [] {
    } else {
      if (ids[0], leaver) in ballots || proposals[ids[0]].status != Open {
        StoredNotMissing(proposals, ballots, leaver, ids[1..]);
      } else if proposals[ids[0]].totalPoints >= VOTING_POINTS {
        var adjusted := proposals[ids[0]].(totalPoints := proposals[ids[0]].totalPoints - VOTING_POINTS);
        StoredNotMissing(proposals[ids[0] := adjusted], ballots, leaver, ids[1..]);
      }
    }
  }

  lemma LongLeaveFramed(s: State, block: Block, leaver: Addr, escrow: EscrowStatus)
    requires Indexed(s)
    ensures
      var r := TriggerLongLeave(s, block, leaver, escrow);
      r != Err(MissingProposal) && (r.Ok? ==> Framed(s, r.value, block))
  {
    hide AdjustForLeaver, OpenProposalIds, Indexed;
    var ids := OpenProposalIds(s.byExpiry, block.Seconds());
    ListedIsStored(s, block.Seconds());
    StoredNotMissing(s.proposals, s.ballots, leaver, ids);
    if AdjustForLeaver(s.proposals, s.ballots, leaver, ids).Ok? {
      AdjustForLeaverResult(s.proposals, s.ballots, leaver, ids);
    }
  }

  lemma PunishFramed(s: State, block: Block, id: nat, p: Punishment)
    requires Indexed(s)
    ensures
      var r := Punish(s, block, id, p);
      r != Err(MissingProposal) && (r.Ok? ==> Framed(s, r.value.0, block))
  {
    hide TriggerLongLeave, SlashOf, AllCarried, Indexed;
    if p.member in s.escrows {
      SlashErrors(s.escrows[p.member].paid, p);
      var slash := SlashOf(s.escrows[p.member].paid, p);
      if slash.Ok? {
        var charged := s.(ledger := Charged(s.ledger, slash.value));
        SameProposalsFramed(s, charged, block);
        FramedKeepsIndex(s, charged, block);
        LongLeaveFramed(charged, block, p.member, s.escrows[p.member].(paid := slash.value.remaining));
      }
    }
  }

  lemma SameProposalsFramed(s: State, next: State, block: Block)
    requires Untouched(s, next)
    ensures AllCarried(s.proposals, next.proposals, block)
  {
  }

  lemma SlashErrors(paid: nat, p: Punishment)
    ensures SlashOf(paid, p) != Err(MissingProposal)
  {
  }

  lemma {:induction false} PunishEachFramed(s: State, block: Block, id: nat, ps: seq<Punishment>)
    requires Indexed(s)
    ensures
      var r := PunishEach(s, block, id, ps);
      r != Err(MissingProposal) && (r.Ok? ==> Framed(s, r.value.0, block))
    decreases |ps|
  {
    hide Punish, Indexed;
    if ps == [] {
    } else {
      PunishFramed(s, block, id, ps[0]);
      var r := Punish(s, block, id, ps[0]);
      if r.Ok? {
        FramedKeepsIndex(s, r.value.0, block);
        PunishEachFramed(r.value.0, block, id, ps[1..]);
      }
    }
  }

  lemma ExecuteContentFramed(s: State, block: Block, id: nat, content: Content, denied: set<Addr>)
    requires Indexed(s)
    ensures
      var r := ExecuteContent(s, block, id, content, denied);
      r != Err(MissingProposal) && (r.Ok? ==> Framed(s, r.value, block))
  {
    hide AddNonVoting, RemoveNonVoting, AddPending, PunishEach, Indexed;
    match content
    case AddRemoveNonVotingMembers(remove, add) => AddRemoveUntouched(s, add, remove);
    case EditTrustedCircle(adj) =>
    case AddVotingMembers(voters) =>
      var batched := CreateBatch(s, block, id, s.circle.rules.PeriodSeconds(), voters);
      if batched.Ok? {
        AddPendingUntouched(batched.value, id, voters);
      }
    case PunishMembers(ps) => PunishEachFramed(s, block, id, ps);
    case WhitelistContract(a) => AddRemoveUntouched(s, [a], []);
    case RemoveContract(a) => AddRemoveUntouched(s, [], [a]);
  }

  lemma AddRemoveUntouched(s: State, add: seq<Addr>, remove: seq<Addr>)
    ensures RemoveNonVoting(AddNonVoting(s, add), remove) != Err(MissingProposal)
    ensures RemoveNonVoting(AddNonVoting(s, add), remove).Ok? ==>
      Untouched(s, RemoveNonVoting(AddNonVoting(s, add), remove).value)
  {
    hide AddNonVoting, RemoveNonVoting;
    AddNonVotingUntouched(s, add);
    RemoveNonVotingUntouched(AddNonVoting(s, add), remove);
  }

  // ---------------------------------------------------------------- every message keeps the index

  /** What proposing writes: one proposal, under the next id, and its second. */
  lemma ProposeFrame(s: State, block: Block, sender: Addr, content: Content, others: Others)
    requires ProposeContent(s, block, sender, content, others).Ok?
    ensures
      var next := ProposeContent(s, block, sender, content, others).value;
      var id := s.proposalCount + 1;
      && id in next.proposals && next.proposals == s.proposals[id := next.proposals[id]] && next.proposalCount == id
      && next.byExpiry == s.byExpiry[ExpirySecond(next.proposals[id]) := id]
      && ExpirySecond(next.proposals[id]) == block.Seconds() + s.circle.rules.PeriodSeconds()
      && next.circle.rules == s.circle.rules && next.proposals[id].rules == s.circle.rules
    ensures
      var p := ProposeContent(s, block, sender, content, others).value.proposals[s.proposalCount + 1];
      && p.status != Executed
      && (Approved(p) && s.circle.rules.votingPeriod > 0 ==> p.rules.allowEndEarly)
  {
    hide CheckAllPending, ValidateContent, VotesNeeded;
    CheckAllUntouched(s, block);
    WholePeriods(block, s.circle.rules.PeriodSeconds());
  }

  lemma ProposeKeepsIndex(s: State, block: Block, sender: Addr, content: Content, others: Others)
    requires Indexed(s) && ProposeContent(s, block, sender, content, others).Ok?
    ensures
      var next := ProposeContent(s, block, sender, content, others).value;
      var id := s.proposalCount + 1;
      && Indexed(next)
      && next.proposals.Keys == s.proposals.Keys + {id} && next.proposalCount == id
      && next.byExpiry == s.byExpiry[ExpirySecond(next.proposals[id]) := id]
      && ExpirySecond(next.proposals[id]) == block.Seconds() + s.circle.rules.PeriodSeconds()
      && (forall p :: p in s.proposals ==> next.proposals[p] == s.proposals[p])
      && next.circle.rules == s.circle.rules
      && (Approved(next.proposals[id]) && s.circle.rules.votingPeriod > 0 ==> next.proposals[id].rules.allowEndEarly)
  {
    hide ProposeContent;
    ProposeFrame(s, block, sender, content, others);
  }

  lemma WholePeriods(block: Block, period: nat)
    ensures (block.time + period * NANOS_PER_SECOND) / NANOS_PER_SECOND == block.Seconds() + period
  {
  }

  lemma VoteFramed(s: State, block: Block, sender: Addr, id: nat, vote: Vote, power: nat)
    ensures VoteOn(s, block, sender, id, vote, power).Ok? ==>
      Framed(s, VoteOn(s, block, sender, id, vote, power).value, block)
    ensures VoteOn(s, block, sender, id, vote, power) == Err(MissingProposal) ==> id !in s.proposals
  {
    hide VotesNeeded;
  }

  /** The proposal marked as executed. */
  function Marked(s: State, id: nat): State
    requires id in s.proposals
  {
    s.(proposals := s.proposals[id := s.proposals[id].(status := Executed)])
  }

  lemma MarkedKeepsIndex(s: State, id: nat)
    requires id in s.proposals && s.proposals[id].status == Passed
    ensures Indexed(s) ==> Indexed(Marked(s, id))
    ensures EarlyOnly(s) ==> EarlyOnly(Marked(s, id))
  {
  }

  lemma ExecuteFramed(s: State, block: Block, id: nat, denied: set<Addr>)
    requires Indexed(s)
    ensures
      var r := ExecuteProposal(s, block, id, denied);
      && (r.Ok? ==> id in s.proposals && s.proposals[id].status == Passed && Framed(Marked(s, id), r.value, block))
      && (r == Err(MissingProposal) ==> id !in s.proposals)
  {
    hide ExecuteContent, Indexed;
    if id in s.proposals && s.proposals[id].status == Passed {
      MarkedKeepsIndex(s, id);
      ExecuteContentFramed(Marked(s, id), block, id, s.proposals[id].content, denied);
    }
  }

  lemma LeaveFramed(s: State, block: Block, sender: Addr)
    requires Indexed(s)
    ensures
      var r := Leave(s, block, sender);
      r != Err(MissingProposal) && (r.Ok? ==> Framed(s, r.value, block))
  {
    hide TriggerLongLeave;
    if sender in s.escrows {
      LongLeaveFramed(s, block, sender, s.escrows[sender]);
    }
  }

  /** What a message does to the proposals stored before it: proposing adds one, executing marks one, and
      otherwise all are carried on. */
  ghost predicate HandledProposals(s: State, call: Call, next: State) {
    match call.message
    case Propose(_, _) =>
      s.proposalCount + 1 in next.proposals
      && next.proposals == s.proposals[s.proposalCount + 1 := next.proposals[s.proposalCount + 1]]
    case Execute(id, _) =>
      id in s.proposals && s.proposals[id].status == Passed && Framed(Marked(s, id), next, call.block)
    case DepositEscrow(_) => Framed(s, next, call.block)
    case ReturnEscrow => Framed(s, next, call.block)
    case CastVote(_, _, _) => Framed(s, next, call.block)
    case Close(_) => Framed(s, next, call.block)
    case LeaveTrustedCircle => Framed(s, next, call.block)
    case CheckPending => Framed(s, next, call.block)
  }

  lemma HandleFrames(s: State, call: Call)
    requires Indexed(s) && Handle(s, call).Ok?
    ensures HandledProposals(s, call, Handle(s, call).value)
  {
    hide Deposit, ProposeContent, VoteOn, ExecuteProposal, Leave, CheckAllPending, Indexed, ExpirySecond;
    match call.message
    case DepositEscrow(amount) => DepositUntouched(s, call.block, call.sender, amount);
    case ReturnEscrow =>
    case Propose(content, others) => ProposeFrame(s, call.block, call.sender, content, others);
    case CastVote(id, vote, power) => VoteFramed(s, call.block, call.sender, id, vote, power);
    case Execute(id, others) => ExecuteFramed(s, call.block, id, others.denied);
    case Close(id) =>
    case LeaveTrustedCircle => LeaveFramed(s, call.block, call.sender);
    case CheckPending => CheckAllUntouched(s, call.block);
  }

  /** Every message keeps the index, and a proposal is missing only if the sender named one that was
      never made. */
  lemma HandleKeepsIndex(s: State, call: Call)
    requires Indexed(s)
    ensures Handle(s, call).Ok? ==> Indexed(Handle(s, call).value)
    ensures Handle(s, call).Ok? && EarlyOnly(s) && s.circle.rules.votingPeriod > 0 ==> EarlyOnly(Handle(s, call).value)
    ensures Handle(s, call) == Err(MissingProposal) ==>
      match call.message
      case CastVote(id, _, _) => id !in s.proposals
      case Execute(id, _) => id !in s.proposals
      case Close(id) => id !in s.proposals
      case DepositEscrow(_) => false
      case ReturnEscrow => false
      case Propose(_, _) => false
      case LeaveTrustedCircle => false
      case CheckPending => false
  {
    hide Handle, Indexed, EarlyOnly, Framed;
    HandleErrors(s, call);
    var r := Handle(s, call);
    if r.Ok? {
      HandleFrames(s, call);
      match call.message
      case Propose(_, _) => ProposedKeepsIndex(s, call);
      case Execute(id, _) =>
        MarkedKeepsIndex(s, id);
        FramedKeepsIndex(Marked(s, id), r.value, call.block);
      case DepositEscrow(_) => FramedKeepsIndex(s, r.value, call.block);
      case ReturnEscrow => FramedKeepsIndex(s, r.value, call.block);
      case CastVote(_, _, _) => FramedKeepsIndex(s, r.value, call.block);
      case Close(_) => FramedKeepsIndex(s, r.value, call.block);
      case LeaveTrustedCircle => FramedKeepsIndex(s, r.value, call.block);
      case CheckPending => FramedKeepsIndex(s, r.value, call.block);
    }
  }

  lemma ProposedKeepsIndex(s: State, call: Call)
    requires Indexed(s) && call.message.Propose? && Handle(s, call).Ok?
    ensures Indexed(Handle(s, call).value)
    ensures EarlyOnly(s) && s.circle.rules.votingPeriod > 0 ==> EarlyOnly(Handle(s, call).value)
  {
    hide ProposeContent, Indexed, Rules.PeriodSeconds;
    ProposeKeepsIndex(s, call.block, call.sender, call.message.content, call.message.others);
  }

  lemma HandleErrors(s: State, call: Call)
    requires Indexed(s)
    ensures Handle(s, call) == Err(MissingProposal) ==>
      match call.message
      case CastVote(id, _, _) => id !in s.proposals
      case Execute(id, _) => id !in s.proposals
      case Close(id) => id !in s.proposals
      case DepositEscrow(_) => false
      case ReturnEscrow => false
      case Propose(_, _) => false
      case LeaveTrustedCircle => false
      case CheckPending => false
  {
    hide Deposit, ProposeContent, VoteOn, ExecuteProposal, Leave, CheckAllPending, Indexed;
    match call.message
    case DepositEscrow(amount) => DepositErrors(s, call.block, call.sender, amount);
    case ReturnEscrow =>
    case Propose(content, others) => ProposeErrors(s, call.block, call.sender, content, others);
    case CastVote(id, vote, power) => VoteFramed(s, call.block, call.sender, id, vote, power);
    case Execute(id, others) => ExecuteFramed(s, call.block, id, others.denied);
    case Close(id) =>
    case LeaveTrustedCircle => LeaveFramed(s, call.block, call.sender);
    case CheckPending => CheckAllErrors(s, call.block);
  }

  lemma {:induction false} ConvertEachErrors(s: State, addrs: seq<Addr>)
    ensures ConvertEach(s, addrs) != Err(MissingProposal)
    decreases |addrs|
  {
    if addrs == [] {
    } else {
      var r := ConvertIfPaid(s, addrs[0]);
      if r.Ok? {
        ConvertEachErrors(r.value.0, addrs[1..]);
      }
    }
  }

  lemma DepositErrors(s: State, block: Block, sender: Addr, amount: nat)
    ensures Deposit(s, block, sender, amount) != Err(MissingProposal)
  {
    hide ConvertEach;
    if sender in s.escrows && s.escrows[sender].status.Pending? {
      var id := s.escrows[sender].status.proposalId;
      if id in s.batches {
        var e := s.escrows[sender].(paid := s.escrows[sender].paid + amount);
        var paid := s.(escrows := s.escrows[sender := e.(status := PendingPaid(id))],
                       ledger := s.ledger.(deposited := s.ledger.deposited + amount));
        ConvertEachErrors(paid, s.batches[id].members);
      }
    }
  }

  lemma {:induction false} DemoteEachErrors(s: State, id: nat, addrs: seq<Addr>)
    ensures DemoteEach(s, id, addrs) != Err(MissingProposal)
    decreases |addrs|
  {
    if addrs == [] {
    } else if addrs[0] in s.escrows {
      var escrow := s.escrows[addrs[0]].(status := MemberStatus.Pending(id));
      var r := TakeVote(s.(escrows := s.escrows[addrs[0] := escrow]), addrs[0]);
      if r.Ok? {
        DemoteEachErrors(r.value, id, addrs[1..]);
      }
    }
  }

  lemma {:induction false} ConvertBatchesErrors(s: State, ids: seq<nat>)
    ensures ConvertBatches(s, ids) != Err(MissingProposal)
    decreases |ids|
  {
    if ids == [] {
    } else if ids[0] in s.batches {
      ConvertEachErrors(s, s.batches[ids[0]].members);
      var r := ConvertAllPaid(s, ids[0], s.batches[ids[0]]);
      if r.Ok? {
        ConvertBatchesErrors(r.value, ids[1..]);
      }
    }
  }

  lemma CheckAllErrors(s: State, block: Block)
    ensures CheckAllPending(s, block) != Err(MissingProposal)
  {
    hide DemoteEach, ConvertBatches, Ascending, PromoteEach;
    if s.circle.escrowPending.Some? {
      var p := s.circle.escrowPending.value;
      DemoteEachErrors(s, p.proposalId, BelowEscrowVoters(s.escrows, p.amount));
    }
    var r := CheckPendingEscrow(s, block);
    if r.Ok? {
      ConvertBatchesErrors(r.value, ReadyBatches(r.value.batches, block.Seconds()));
    }
  }

  lemma ProposeErrors(s: State, block: Block, sender: Addr, content: Content, others: Others)
    ensures ProposeContent(s, block, sender, content, others) != Err(MissingProposal)
  {
    hide CheckAllPending, ValidateContent, VotesNeeded;
    CheckAllErrors(s, block);
    var checked := if block.height > 0 then CheckAllPending(s, block) else Ok(s);
    if checked.Ok? {
      ContentNotMissing(checked.value, block, content, others);
    }
  }

  lemma ContentNotMissing(s: State, block: Block, content: Content, others: Others)
    ensures ValidateContent(s, block, content, others) != Err(MissingProposal)
  {
    hide IsBlank, Utf8Length;
    if content.PunishMembers? {
      PunishmentsNotMissing(s, content.punishments);
    }
  }

  lemma {:induction false} PunishmentsNotMissing(s: State, ps: seq<Punishment>)
    ensures ValidatePunishments(s, ps) != Err(MissingProposal)
    decreases |ps|
  {
    if ps == [] {
    } else {
      PunishmentsNotMissing(s, ps[1..]);
    }
  }

  lemma {:induction false} RunKeepsIndex(s: State, block: Block, calls: seq<Call>)
    requires Inv(s, block.Seconds()) && Ordered(block, calls) && Indexed(s) && EarlyOnly(s)
    ensures Indexed(Run(s, calls)) && EarlyOnly(Run(s, calls))
    decreases |calls|
  {
    hide Inv, Indexed, EarlyOnly, Handle;
    if calls == [] {
    } else {
      ValidRules(s, block.Seconds());
      HandleKeepsIndex(s, calls[0]);
      StepKeeps(s, block, calls[0]);
      RunKeepsIndex(Step(s, calls[0]), calls[0].block, calls[1..]);
    }
  }

  lemma ValidRules(s: State, now: nat)
    requires Inv(s, now)
    ensures s.circle.rules.votingPeriod > 0
  {
  }

  lemma StartIndexed(sender: Addr, amount: nat, msg: InstantiateMsg, denied: set<Addr>)
    requires Instantiate(sender, amount, msg, denied).Ok?
    ensures Indexed(Instantiate(sender, amount, msg, denied).value)
    ensures EarlyOnly(Instantiate(sender, amount, msg, denied).value)
  {
    hide AddNonVoting, RemoveNonVoting;
    AddRemoveUntouched(FirstState(sender, amount, msg.Circle()), msg.initialMembers, []);
  }

  // ---------------------------------------------------------------- what the index lists

  /** A later proposal expires in the same second. */
  ghost predicate Shadowed(s: State, id: nat)
    requires id in s.proposals
  {
    exists other :: other in s.proposals && other > id
        && ExpirySecond(s.proposals[other]) == ExpirySecond(s.proposals[id])
  }

  /** A proposal is listed exactly if its second lies ahead and no later proposal expires in the same
      one; and then it is listed once. */
  lemma ListedIff(s: State, now: nat, id: nat)
    requires Indexed(s) && id in s.proposals
    ensures
      var ids := OpenProposalIds(s.byExpiry, now);
      && (id in ids <==> now < ExpirySecond(s.proposals[id]) && !Shadowed(s, id))
      && multiset(ids)[id] == (if id in ids then 1 else 0)
  {
    hide Ascending;
    var keys := Ascending(set k | k in s.byExpiry && now < k);
    var ids := OpenProposalIds(s.byExpiry, now);
    var second := ExpirySecond(s.proposals[id]);
    forall i | 0 <= i < |ids| ensures keys[i] in s.byExpiry && ids[i] == s.byExpiry[keys[i]] && now < keys[i] {
      assert keys[i] in keys;
    }
    if id in ids {
      var i :| 0 <= i < |ids| && ids[i] == id;
      assert keys[i] == second;
      OnlyOnce(ids, id, i);
    }
    if now < second && s.byExpiry[second] == id {
      assert second in keys;
      var i :| 0 <= i < |keys| && keys[i] == second;
      assert ids[i] == id;
    }
    if s.byExpiry[second] != id {
      assert s.byExpiry[second] > id;
    }
  }

  /** What occurs at one position only occurs once. */
  lemma OnlyOnce(ids: seq<nat>, id: nat, i: nat)
    requires i < |ids| && ids[i] == id && forall j :: 0 <= j < |ids| && j != i ==> ids[j] != id
    ensures multiset(ids)[id] == 1
  {
    assert ids == ids[..i] + [id] + ids[i + 1..];
    assert id !in ids[..i] && id !in ids[i + 1..];
  }

  /** The second of two proposals made in one block hides the first: nobody who leaves is taken out of
      the first one's points any more. */
  lemma SecondHidesFirst(s: State, block: Block, one: Call, two: Call, now: nat)
    requires Indexed(s) && one.message.Propose? && two.message.Propose? && one.block == two.block == block
    requires Handle(s, one).Ok? && Handle(Handle(s, one).value, two).Ok?
    ensures
      var first, end := s.proposalCount + 1, Handle(Handle(s, one).value, two).value;
      && first in end.proposals && first !in OpenProposalIds(end.byExpiry, now)
      && first + 1 in end.proposals
  {
    hide ProposeContent, Indexed;
    ProposeKeepsIndex(s, block, one.sender, one.message.content, one.message.others);
    var middle := Handle(s, one).value;
    ProposeKeepsIndex(middle, block, two.sender, two.message.content, two.message.others);
    var end := Handle(middle, two).value;
    ListedIff(end, now, s.proposalCount + 1);
    assert s.proposalCount + 2 in end.proposals;
  }

  // ---------------------------------------------------------------- leaving

  /** A proposal that a leaver's point is to be taken from: open, listed, and without his ballot. */
  ghost predicate Adjusts(s: State, now: nat, leaver: Addr, id: nat)
    requires id in s.proposals
  {
    && s.proposals[id].status == Open && (id, leaver) !in s.ballots
    && now < ExpirySecond(s.proposals[id]) && !Shadowed(s, id)
  }

  lemma {:induction false} AdjustSucceedsIff(proposals: map<nat, Proposal>, ballots: map<(nat, Addr), Ballot>,
                                             leaver: Addr, ids: seq<nat>)
    requires forall i :: 0 <= i < |ids| ==> ids[i] in proposals
    requires forall i, j :: 0 <= i < j < |ids| ==> ids[i] != ids[j]
    ensures AdjustForLeaver(proposals, ballots, leaver, ids).Ok? <==>
      forall id :: id in ids && proposals[id].status == Open && (id, leaver) !in ballots ==>
          proposals[id].totalPoints > 0
    decreases |ids|
  {
    if ids == [] {
    } else {
      assert forall id :: id in ids <==> id == ids[0] || id in ids[1..];
      if (ids[0], leaver) in ballots || proposals[ids[0]].status != Open {
        AdjustSucceedsIff(proposals, ballots, leaver, ids[1..]);
      } else if proposals[ids[0]].totalPoints >= VOTING_POINTS {
        var adjusted := proposals[ids[0]].(totalPoints := proposals[ids[0]].totalPoints - VOTING_POINTS);
        AdjustSucceedsIff(proposals[ids[0] := adjusted], ballots, leaver, ids[1..]);
        assert forall id :: id in ids[1..] ==> id != ids[0];
      }
    }
  }

  lemma ListedDistinct(s: State, now: nat)
    requires Indexed(s)
    ensures
      var ids := OpenProposalIds(s.byExpiry, now);
      forall i, j :: 0 <= i < j < |ids| ==> ids[i] != ids[j]
  {
    hide Ascending;
    var keys := Ascending(set k | k in s.byExpiry && now < k);
    forall i | 0 <= i < |keys| ensures keys[i] in s.byExpiry {
      assert keys[i] in keys;
    }
  }

  /** Leaving works exactly for a member who is not leaving yet, unless he votes and a proposal that his
      point is to be taken from has no points left: that can happen, because he need not have been
      entitled to vote on it. */
  lemma LeaveSucceedsIff(s: State, block: Block, sender: Addr)
    requires Inv(s, block.Seconds()) && Indexed(s)
    ensures Leave(s, block, sender).Ok? <==>
      && sender in s.escrows && !s.escrows[sender].status.Leaving?
      && (s.escrows[sender].status == Voting ==>
            forall id :: id in s.proposals && Adjusts(s, block.Seconds(), sender, id) ==>
                s.proposals[id].totalPoints > 0)
  {
    hide AdjustForLeaver, OpenProposalIds, Indexed, Shadowed, Stakes, BatchBounds, Checked, Conserved, Ids,
        PendingFresh;
    if sender in s.escrows && s.escrows[sender].status == Voting {
      VoterCounted(s, sender);
      AdjustmentSucceedsIff(s, block.Seconds(), sender);
    }
  }

  lemma AdjustmentSucceedsIff(s: State, now: nat, leaver: Addr)
    requires Indexed(s)
    ensures AdjustForLeaver(s.proposals, s.ballots, leaver, OpenProposalIds(s.byExpiry, now)).Ok? <==>
      forall id :: id in s.proposals && Adjusts(s, now, leaver, id) ==> s.proposals[id].totalPoints > 0
  {
    hide AdjustForLeaver, OpenProposalIds, Indexed, Shadowed;
    var ids := OpenProposalIds(s.byExpiry, now);
    ListedIsStored(s, now);
    ListedDistinct(s, now);
    AdjustSucceedsIff(s.proposals, s.ballots, leaver, ids);
    forall id | id in s.proposals
      ensures id in ids <==> now < ExpirySecond(s.proposals[id]) && !Shadowed(s, id)
    {
      ListedIff(s, now, id);
    }
    assert forall id :: id in ids ==> id in s.proposals;
  }

  /** When a voter leaves, exactly the open proposals he has not voted on, that have not reached their
      second and are not hidden by a later one of the same second, lose one point each. */
  lemma LeaveAdjustsExactly(s: State, block: Block, sender: Addr)
    requires Indexed(s) && sender in s.escrows && s.escrows[sender].status == Voting && Leave(s, block, sender).Ok?
    ensures
      var next := Leave(s, block, sender).value;
      && next.proposals.Keys == s.proposals.Keys
      && forall id :: id in s.proposals ==>
           var p := s.proposals[id];
           next.proposals[id] == if Adjusts(s, block.Seconds(), sender, id)
                                 then p.(totalPoints := next.proposals[id].totalPoints) else p
    ensures
      var next := Leave(s, block, sender).value;
      forall id :: id in s.proposals && Adjusts(s, block.Seconds(), sender, id) ==>
        id in next.proposals && next.proposals[id].totalPoints == s.proposals[id].totalPoints - 1
  {
    hide AdjustForLeaver, OpenProposalIds, Indexed, Shadowed;
    var ids := OpenProposalIds(s.byExpiry, block.Seconds());
    var next := Leave(s, block, sender).value;
    AdjustForLeaverResult(s.proposals, s.ballots, sender, ids);
    assert next.proposals == AdjustForLeaver(s.proposals, s.ballots, sender, ids).value;
    forall id | id in s.proposals
      ensures id in ids <==> block.Seconds() < ExpirySecond(s.proposals[id]) && !Shadowed(s, id)
      ensures multiset(ids)[id] == (if id in ids then 1 else 0)
    {
      ListedIff(s, block.Seconds(), id);
    }
  }

  /** All of this holds in every reachable state. */
  lemma ReachableIndexed(block: Block, sender: Addr, amount: nat, msg: InstantiateMsg, denied: set<Addr>,
                         calls: seq<Call>)
    requires Instantiate(sender, amount, msg, denied).Ok? && Ordered(block, calls)
    ensures
      var s := Run(Instantiate(sender, amount, msg, denied).value, calls);
      Indexed(s) && EarlyOnly(s)
  {
    hide Inv, Indexed, EarlyOnly, Instantiate;
    InstantiateEstablishes(block, sender, amount, msg, denied);
    StartIndexed(sender, amount, msg, denied);
    RunKeepsIndex(Instantiate(sender, amount, msg, denied).value, block, calls);
  }
}
