/**
 Executed proposals keep the circle's invariant, so every run does; and what that means.
 */
module CircleRuns {
  import opened Base
  import opened Sums
  import opened Voting
  import opened Circle
  import opened CircleInvariant
  import opened CirclePromotion
  import opened CircleGovernance

  // ---------------------------------------------------------------- members added and removed

  lemma {:induction false} AddNonVotingKeeps(s: State, now: nat, addrs: seq<Addr>)
    requires Loose(s, now, 0, None, {})
    ensures Loose(AddNonVoting(s, addrs), now, 0, None, {}) && Reshuffled(s, AddNonVoting(s, addrs))
    decreases |addrs|
  {
    if addrs == [] {
    } else {
      if addrs[0] in s.members {
        AddNonVotingKeeps(s, now, addrs[1..]);
      } else {
        AddOne(s, now, None, {}, addrs[0], EscrowStatus(0, NonVoting));
        AddNonVotingKeeps(Put(s, addrs[0], EscrowStatus(0, NonVoting)), now, addrs[1..]);
      }
    }
  }

  /** A member without escrow may be added, or replace a non-voting one: no tokens are lost. */
  lemma AddOne(s: State, now: nat, open: Option<nat>, named: set<Addr>, a: Addr, e: EscrowStatus)
    requires Loose(s, now, 0, open, named) && e.paid == 0
    requires a in s.escrows ==> s.escrows[a].status == NonVoting
    requires e.status == NonVoting || (e.status.Pending? && open == Some(e.status.proposalId))
    ensures Loose(Put(s, a, e), now, 0, open, if e.status.Pending? then named + {a} else named)
    ensures Reshuffled(s, Put(s, a, e))
  {
    PutKeeps(s, now, 0, open, named, a, e);
    PaidPut(s.escrows, a, e);
  }

  lemma {:induction false} RemoveNonVotingKeeps(s: State, now: nat, addrs: seq<Addr>)
    requires Loose(s, now, 0, None, {})
    ensures OnlyPossible(RemoveNonVoting(s, addrs))
    ensures RemoveNonVoting(s, addrs).Ok? ==>
      Loose(RemoveNonVoting(s, addrs).value, now, 0, None, {}) && Reshuffled(s, RemoveNonVoting(s, addrs).value)
    decreases |addrs|
  {
    if addrs == [] {
    } else {
      if addrs[0] !in s.escrows {
        RemoveNonVotingKeeps(s, now, addrs[1..]);
      } else if s.escrows[addrs[0]].status == NonVoting {
        RemoveOne(s, now, addrs[0]);
        RemoveNonVotingKeeps(s.(members := s.members - {addrs[0]}, escrows := s.escrows - {addrs[0]}), now, addrs[1..]);
      }
    }
  }

  lemma RemoveOne(s: State, now: nat, a: Addr)
    requires Loose(s, now, 0, None, {}) && a in s.escrows && s.escrows[a].status == NonVoting
    ensures
      var next := s.(members := s.members - {a}, escrows := s.escrows - {a});
      Loose(next, now, 0, None, {}) && Reshuffled(s, next)
  {
    RemoveKeeps(s, now, 0, None, {}, a);
    PaidRemove(s.escrows, a);
  }

  lemma AddRemoveKeeps(s: State, now: nat, add: seq<Addr>, remove: seq<Addr>, denied: set<Addr>)
    requires Inv(s, now)
    ensures OnlyPossible(AddRemoveNonVoting(s, add, remove, denied))
    ensures AddRemoveNonVoting(s, add, remove, denied).Ok? ==>
        Inv(AddRemoveNonVoting(s, add, remove, denied).value, now)
  {
    hide Agreement, Stakes, BatchBounds, Ids, PendingFresh, AddNonVoting, RemoveNonVoting, Paid;
    AddNonVotingKeeps(s, now, add);
    RemoveNonVotingKeeps(AddNonVoting(s, add), now, remove);
    var r := RemoveNonVoting(AddNonVoting(s, add), remove);
    if r.Ok? {
      InvFrom(s, r.value, now);
    }
  }

  lemma {:induction false} AddPendingKeeps(s: State, now: nat, id: nat, named: set<Addr>, addrs: seq<Addr>)
    requires Loose(s, now, 0, Some(id), named) && (forall i :: 0 <= i < |addrs| ==> addrs[i] in named)
    ensures Loose(AddPending(s, id, addrs), now, 0, Some(id), named) && Reshuffled(s, AddPending(s, id, addrs))
    decreases |addrs|
  {
    if addrs == [] {
    } else {
      if addrs[0] in s.escrows && s.escrows[addrs[0]].status != NonVoting {
        AddPendingKeeps(s, now, id, named, addrs[1..]);
      } else {
        var e := EscrowStatus(0, MemberStatus.Pending(id));
        AddOne(s, now, Some(id), named, addrs[0], e);
        assert named + {addrs[0]} == named;
        AddPendingKeeps(Put(s, addrs[0], e), now, id, named, addrs[1..]);
      }
    }
  }

  /** Only members and escrows are touched, so the batch may as well be stored afterwards. */
  lemma {:induction false} AddPendingCommutes(s: State, batches: map<nat, Batch>, id: nat, addrs: seq<Addr>)
    ensures AddPending(s.(batches := batches), id, addrs) == AddPending(s, id, addrs).(batches := batches)
    decreases |addrs|
  {
    if addrs == [] {
    } else {
      if addrs[0] in s.escrows && s.escrows[addrs[0]].status != NonVoting {
        AddPendingCommutes(s, batches, id, addrs[1..]);
      } else {
        AddPendingCommutes(Put(s, addrs[0], EscrowStatus(0, MemberStatus.Pending(id))), batches, id, addrs[1..]);
      }
    }
  }

  lemma AddVotingKeeps(s: State, block: Block, id: nat, voters: seq<Addr>, denied: set<Addr>)
    requires Inv(s, block.Seconds()) && Fresh(s, id)
    ensures AddVoting(s, block, id, voters, denied).Ok? <==> !AnyIn(voters, denied)
    ensures OnlyPossible(AddVoting(s, block, id, voters, denied))
    ensures AddVoting(s, block, id, voters, denied).Ok? ==>
      Inv(AddVoting(s, block, id, voters, denied).value, block.Seconds())
  {
    hide Agreement, Stakes, BatchBounds, Ids, PendingFresh, Paid, AddPending;
    var grace := s.circle.rules.PeriodSeconds();
    var named := Names(voters);
    OpenBatch(s, block.Seconds(), id);
    NamedMore(s, block.Seconds(), id, named);
    AddPendingKeeps(s, block.Seconds(), id, named, voters);
    var added := AddPending(s, id, voters);
    CreateBatchKeeps(added, block, 0, id, grace, voters);
    AddPendingCommutes(s, CreateBatch(added, block, id, grace, voters).value.batches, id, voters);
    BatchedKeeps(s, CreateBatch(added, block, id, grace, voters).value, block.Seconds(), id);
  }

  lemma NamedMore(s: State, now: nat, id: nat, named: set<Addr>)
    requires Loose(s, now, 0, Some(id), {})
    ensures Loose(s, now, 0, Some(id), named)
  {
  }

  /** An executing proposal: marked as executed, with no batch and no pending escrow of its own. */
  ghost predicate Fresh(s: State, id: nat) {
    && id in s.proposals && s.proposals[id].status == Executed && id !in s.batches
    && (s.circle.escrowPending.Some? ==> s.circle.escrowPending.value.proposalId != id)
  }

  /** The invariant after a step that may have stored the batch of the executing proposal. */
  lemma BatchedKeeps(s: State, next: State, now: nat, id: nat)
    requires Inv(s, now) && Fresh(s, id) && Loose(next, now, 0, None, {}) && Batched(s, next, id)
    ensures Inv(next, now)
  {
  }

  // ---------------------------------------------------------------- punishments

  /** A punishment changes members, escrows, total, ledger and at most the points of proposals. */
  ghost predicate Punished(s: State, next: State) {
    && next == s.(escrows := next.escrows, members := next.members, total := next.total,
                  proposals := next.proposals, ledger := next.ledger)
    && SameProposals(s.proposals, next.proposals)
    && Conserved(next)
  }

  /** What a punishment has to keep, with the executing proposal's batch still open. */
  ghost predicate PunishedSoundly(s: State, block: Block, id: nat, named: set<Addr>, p: Punishment) {
    var r := Punish(s, block, id, p);
    && OnlyPossible(r)
    && (r.Ok? ==>
          && Loose(r.value.0, block.Seconds(), 0, Some(id), if r.value.1 then named + {p.member} else named)
          && Punished(s, r.value.0))
  }

  lemma PunishKeeps(s: State, block: Block, id: nat, named: set<Addr>, p: Punishment)
    requires Loose(s, block.Seconds(), 0, Some(id), named) && Conserved(s) && PunishmentChecked(p)
    requires s.circle.Validate().Ok?
    ensures PunishedSoundly(s, block, id, named, p)
  {
    hide Loose, SlashOf, Conserved, Paid, Sum, TriggerLongLeave;
    if p.member in s.escrows && s.escrows[p.member].status != NonVoting {
      SlashSplits(s.escrows[p.member].paid, p);
      var slash := SlashOf(s.escrows[p.member].paid, p).value;
      if p.kickOut {
        KickOutKeeps(s, block, id, named, p, slash);
      } else if slash.remaining < s.circle.GetEscrow() {
        DemotionKeeps(s, block, id, named, p, slash);
      } else {
        SlashingKeeps(s, block, id, named, p, slash);
      }
    }
  }

  lemma KickOutKeeps(s: State, block: Block, id: nat, named: set<Addr>, p: Punishment, slash: Slash)
    requires Loose(s, block.Seconds(), 0, Some(id), named) && Conserved(s) && p.kickOut
    requires p.member in s.escrows && s.escrows[p.member].status != NonVoting
    requires SlashOf(s.escrows[p.member].paid, p) == Ok(slash)
    requires slash.sent + slash.burned + slash.remaining == s.escrows[p.member].paid
    ensures PunishedSoundly(s, block, id, named, p)
  {
    hide Loose, SlashOf, TriggerLongLeave, Conserved, Paid, Sum;
    var slashed := s.(ledger := Charged(s.ledger, slash));
    var kept := s.escrows[p.member].(paid := slash.remaining);
    LedgerKeeps(s, slashed.ledger, block.Seconds(), Some(id), named);
    LongLeaveKeeps(slashed, block, Some(id), named, p.member, kept);
    var r := TriggerLongLeave(slashed, block, p.member, kept);
    if r.Ok? {
      SlashConserves(s, r.value, p.member, slash);
    }
  }

  lemma DemotionKeeps(s: State, block: Block, id: nat, named: set<Addr>, p: Punishment, slash: Slash)
    requires Loose(s, block.Seconds(), 0, Some(id), named) && Conserved(s)
    requires !p.kickOut && slash.remaining < s.circle.GetEscrow()
    requires p.member in s.escrows && s.escrows[p.member].status != NonVoting
    requires SlashOf(s.escrows[p.member].paid, p) == Ok(slash)
    requires slash.sent + slash.burned + slash.remaining == s.escrows[p.member].paid
    ensures PunishedSoundly(s, block, id, named, p)
  {
    hide Loose, SlashOf, Conserved, Paid, Sum, TakeVote;
    var slashed := s.(ledger := Charged(s.ledger, slash));
    var demoted := EscrowStatus(slash.remaining, MemberStatus.Pending(id));
    LedgerKeeps(s, slashed.ledger, block.Seconds(), Some(id), named);
    DemoteSlashed(slashed, block, id, named, p.member, demoted);
    SlashConserves(s, slashed.(escrows := s.escrows[p.member := demoted]), p.member, slash);
    ConservedByEscrows(slashed.(escrows := s.escrows[p.member := demoted]), Punish(s, block, id, p).value.0);
  }

  lemma SlashingKeeps(s: State, block: Block, id: nat, named: set<Addr>, p: Punishment, slash: Slash)
    requires Loose(s, block.Seconds(), 0, Some(id), named) && Conserved(s) && s.circle.Validate().Ok?
    requires !p.kickOut && slash.remaining >= s.circle.GetEscrow()
    requires p.member in s.escrows && s.escrows[p.member].status != NonVoting
    requires SlashOf(s.escrows[p.member].paid, p) == Ok(slash)
    requires slash.sent + slash.burned + slash.remaining == s.escrows[p.member].paid
    ensures PunishedSoundly(s, block, id, named, p)
  {
    hide Loose, SlashOf, Conserved, Paid, Sum;
    var slashed := s.(ledger := Charged(s.ledger, slash));
    var kept := s.escrows[p.member].(paid := slash.remaining);
    LedgerKeeps(s, slashed.ledger, block.Seconds(), Some(id), named);
    KeepSlashed(slashed, block, id, named, p.member, kept);
    SlashConserves(s, slashed.(escrows := s.escrows[p.member := kept]), p.member, slash);
  }

  lemma ConservedByEscrows(s: State, next: State)
    requires Conserved(s) && next.escrows == s.escrows && next.ledger == s.ledger
    ensures Conserved(next)
  {
  }

  lemma SlashConserves(s: State, next: State, member: Addr, slash: Slash)
    requires Conserved(s) && member in s.escrows
    requires slash.sent + slash.burned + slash.remaining == s.escrows[member].paid
    requires next.ledger == Charged(s.ledger, slash)
    requires
      || Sum(Paid(next.escrows)) == Sum(Paid(s.escrows)) - s.escrows[member].paid + slash.remaining
      || (member in next.escrows && next.escrows == s.escrows[member := next.escrows[member]]
          && next.escrows[member].paid == slash.remaining)
    ensures Conserved(next)
  {
    if member in next.escrows && next.escrows == s.escrows[member := next.escrows[member]] {
      PaidPut(s.escrows, member, next.escrows[member]);
    }
  }

  lemma DemoteSlashed(s: State, block: Block, id: nat, named: set<Addr>, a: Addr, demoted: EscrowStatus)
    requires Loose(s, block.Seconds(), 0, Some(id), named) && a in s.escrows
    requires demoted.status == MemberStatus.Pending(id)
    ensures
      var r := if s.escrows[a].status == Voting then TakeVote(s, a) else Ok(s);
      && r.Ok? && r.value == s.(members := r.value.members, total := r.value.total)
      && Loose(r.value.(escrows := s.escrows[a := demoted]), block.Seconds(), 0, Some(id), named + {a})
  {
    if s.escrows[a].status == Voting {
      TakeVoteAndPut(s, block.Seconds(), Some(id), named, a, demoted);
    } else {
      PutKeeps(s, block.Seconds(), 0, Some(id), named, a, demoted);
      PutSamePoints(s, 0, a, demoted);
    }
  }

  lemma KeepSlashed(s: State, block: Block, id: nat, named: set<Addr>, a: Addr, kept: EscrowStatus)
    requires Loose(s, block.Seconds(), 0, Some(id), named) && a in s.escrows && s.escrows[a].status != NonVoting
    requires s.circle.Validate().Ok? && kept.paid >= s.circle.GetEscrow() && kept.status == s.escrows[a].status
    ensures Loose(s.(escrows := s.escrows[a := kept]), block.Seconds(), 0, Some(id), named)
  {
    PutKeeps(s, block.Seconds(), 0, Some(id), named, a, kept);
    PutSamePoints(s, 0, a, kept);
    if kept.status == MemberStatus.Pending(id) {
      assert a in Waiting(s.escrows, id);
      assert named + {a} == named;
    } else if kept.status.Pending? {
      NamedLess(s.(escrows := s.escrows[a := kept]), block.Seconds(), id, named, a);
    }
  }

  lemma NamedLess(s: State, now: nat, id: nat, named: set<Addr>, a: Addr)
    requires Loose(s, now, 0, Some(id), named + {a}) && a !in Waiting(s.escrows, id)
    ensures Loose(s, now, 0, Some(id), named)
  {
  }

  lemma {:induction false} PunishEachKeeps(s: State, block: Block, id: nat, named: set<Addr>, ps: seq<Punishment>)
    requires Loose(s, block.Seconds(), 0, Some(id), named) && Conserved(s) && s.circle.Validate().Ok?
    requires forall i :: 0 <= i < |ps| ==> PunishmentChecked(ps[i])
    ensures OnlyPossible(PunishEach(s, block, id, ps))
    ensures
      var r := PunishEach(s, block, id, ps);
      r.Ok? ==>
        && Loose(r.value.0, block.Seconds(), 0, Some(id), named + Names(r.value.1))
        && Punished(s, r.value.0)
    decreases |ps|
  {
    hide Loose, Punish, Conserved;
    if ps == [] {
      var none: seq<Addr> := [];
      assert named + Names(none) == named;
    } else {
      PunishKeeps(s, block, id, named, ps[0]);
      var r := Punish(s, block, id, ps[0]);
      if r.Ok? {
        var more := if r.value.1 then named + {ps[0].member} else named;
        PunishEachKeeps(r.value.0, block, id, more, ps[1..]);
        var rest := PunishEach(r.value.0, block, id, ps[1..]);
        if rest.Ok? {
          var first: seq<Addr> := if r.value.1 then [ps[0].member] else [];
          NamesAdd(named, first, rest.value.1);
          assert more == named + Names(first);
        }
      }
    }
  }

  lemma NamesAdd(named: set<Addr>, one: seq<Addr>, two: seq<Addr>)
    ensures named + Names(one) + Names(two) == named + Names(one + two)
  {
    assert forall a :: a in one + two <==> a in one || a in two;
  }

  lemma PunishAllKeeps(s: State, block: Block, id: nat, ps: seq<Punishment>)
    requires Inv(s, block.Seconds()) && Fresh(s, id)
    requires forall i :: 0 <= i < |ps| ==> PunishmentChecked(ps[i])
    ensures OnlyPossible(PunishAll(s, block, id, ps))
    ensures PunishAll(s, block, id, ps).Ok? ==> Inv(PunishAll(s, block, id, ps).value, block.Seconds())
  {
    hide Agreement, Stakes, BatchBounds, Ids, PendingFresh, PunishEach, Conserved;
    OpenBatch(s, block.Seconds(), id);
    PunishEachKeeps(s, block, id, {}, ps);
    var r := PunishEach(s, block, id, ps);
    if r.Ok? {
      assert {} + Names(r.value.1) == Names(r.value.1);
      CreateBatchKeeps(r.value.0, block, 0, id, 0, r.value.1);
      PunishedKeeps(s, r.value.0, CreateBatch(r.value.0, block, id, 0, r.value.1).value, block.Seconds(), id);
    }
  }

  lemma PunishedKeeps(s: State, middle: State, next: State, now: nat, id: nat)
    requires Inv(s, now) && Fresh(s, id) && Punished(s, middle) && Loose(next, now, 0, None, {})
    requires next == middle.(batches := next.batches)
    requires next.batches.Keys <= s.batches.Keys + {id}
    ensures Inv(next, now)
  {
  }

  // ---------------------------------------------------------------- executing a proposal

  /** A passed proposal marked as executed is fresh: no batch and no pending escrow has its id. */
  lemma MarkExecuted(s: State, now: nat, id: nat)
    requires Inv(s, now) && id in s.proposals && s.proposals[id].status != Executed
    ensures
      var marked := s.(proposals := s.proposals[id := s.proposals[id].(status := Executed)]);
      Inv(marked, now) && Fresh(marked, id)
  {
    WriteProposal(s, now, id, s.proposals[id].(status := Executed),
                  s.(proposals := s.proposals[id := s.proposals[id].(status := Executed)]));
  }

  lemma EditKeeps(s: State, block: Block, id: nat, adj: Adjustments)
    requires Inv(s, block.Seconds()) && Fresh(s, id) && AdjustmentsChecked(adj)
    ensures s.circle.ApplyAdjustments(block, id, adj).Ok? ==>
      Inv(s.(circle := s.circle.ApplyAdjustments(block, id, adj).value), block.Seconds())
  {
    var r := s.circle.ApplyAdjustments(block, id, adj);
    if r.Ok? {
      CheckedEditKeepsValid(s.circle, block, id, adj);
      EditedKeeps(s, r.value, block.Seconds(), id);
    }
  }

  lemma EditedKeeps(s: State, circle: TrustedCircle, now: nat, id: nat)
    requires Inv(s, now) && Fresh(s, id) && circle.Validate().Ok?
    requires circle.escrowPending == s.circle.escrowPending
      || (circle.escrowPending.Some? && circle.escrowPending.value.proposalId == id)
    ensures Inv(s.(circle := circle), now)
  {
    hide Agreement, Stakes, BatchBounds;
    CircleKeeps(s, circle, now);
  }

  lemma ExecuteContentKeeps(s: State, block: Block, id: nat, content: Content, denied: set<Addr>)
    requires Inv(s, block.Seconds()) && Fresh(s, id) && ContentChecked(content)
    ensures OnlyPossible(ExecuteContent(s, block, id, content, denied))
    ensures ExecuteContent(s, block, id, content, denied).Ok? ==>
        Inv(ExecuteContent(s, block, id, content, denied).value, block.Seconds())
  {
    hide Inv, Fresh, AddRemoveNonVoting, AddVoting, PunishAll;
    match content
    case AddRemoveNonVotingMembers(remove, add) => AddRemoveKeeps(s, block.Seconds(), add, remove, denied);
    case EditTrustedCircle(adj) => EditKeeps(s, block, id, adj);
    case AddVotingMembers(voters) => AddVotingKeeps(s, block, id, voters, denied);
    case PunishMembers(ps) => PunishAllKeeps(s, block, id, ps);
    case WhitelistContract(a) => AddRemoveKeeps(s, block.Seconds(), [a], [], denied);
    case RemoveContract(a) => AddRemoveKeeps(s, block.Seconds(), [], [a], denied);
  }

  lemma ExecuteKeeps(s: State, block: Block, id: nat, denied: set<Addr>)
    requires Inv(s, block.Seconds())
    ensures OnlyPossible(ExecuteProposal(s, block, id, denied))
    ensures ExecuteProposal(s, block, id, denied).Ok? ==>
        Inv(ExecuteProposal(s, block, id, denied).value, block.Seconds())
  {
    StoredContent(s, block.Seconds(), id);
    hide Inv, ExecuteContent, ContentChecked;
    if id in s.proposals && s.proposals[id].status == Passed {
      MarkExecuted(s, block.Seconds(), id);
      var marked := s.(proposals := s.proposals[id := s.proposals[id].(status := Executed)]);
      ExecuteContentKeeps(marked, block, id, s.proposals[id].content, denied);
    }
  }

  lemma StoredContent(s: State, now: nat, id: nat)
    requires Inv(s, now)
    ensures id in s.proposals ==> ContentChecked(s.proposals[id].content)
  {
  }

  // ---------------------------------------------------------------- runs

  lemma HandleKeeps(s: State, call: Call)
    requires Inv(s, call.block.Seconds())
    ensures OnlyPossible(Handle(s, call))
    ensures Handle(s, call).Ok? ==> Inv(Handle(s, call).value, call.block.Seconds())
  {
    hide Inv, Deposit, Return, ProposeContent, VoteOn, ExecuteProposal, CloseProposal, Leave, CheckAllPending;
    match call.message
    case DepositEscrow(amount) => DepositKeeps(s, call.block, call.sender, amount);
    case ReturnEscrow => ReturnKeeps(s, call.block, call.sender);
    case Propose(content, others) => ProposeKeeps(s, call.block, call.sender, content, others);
    case CastVote(id, vote, power) => VoteKeeps(s, call.block, call.sender, id, vote, power);
    case Execute(id, others) => ExecuteKeeps(s, call.block, id, others.denied);
    case Close(id) => CloseKeeps(s, call.block, id);
    case LeaveTrustedCircle => LeaveKeeps(s, call.block, call.sender);
    case CheckPending => CheckAllPendingKeeps(s, call.block);
  }

  lemma StepKeeps(s: State, block: Block, call: Call)
    requires Inv(s, block.Seconds()) && block.NotAfter(call.block)
    ensures Inv(Step(s, call), call.block.Seconds())
    ensures OnlyPossible(Handle(s, call))
  {
    assert block.Seconds() <= call.block.Seconds() by { SecondsMonotone(block, call.block); }
    InvLater(s, block.Seconds(), call.block.Seconds());
    hide Inv, Handle;
    HandleKeeps(s, call);
  }

  lemma {:induction false} RunKeeps(s: State, block: Block, calls: seq<Call>)
    requires Inv(s, block.Seconds()) && Ordered(block, calls)
    ensures Inv(Run(s, calls), LastBlock(block, calls).Seconds())
    decreases |calls|
  {
    hide Inv, Step;
    if calls == [] {
    } else {
      StepKeeps(s, block, calls[0]);
      RunKeeps(Step(s, calls[0]), calls[0].block, calls[1..]);
    }
  }

  lemma InstantiateEstablishes(block: Block, sender: Addr, amount: nat, msg: InstantiateMsg, denied: set<Addr>)
    ensures
      var r := Instantiate(sender, amount, msg, denied);
      r.Ok? ==> Inv(r.value, block.Seconds())
  {
    var r := Instantiate(sender, amount, msg, denied);
    if r.Ok? {
      FirstMember(sender, amount);
      assert Inv(FirstState(sender, amount, msg.Circle()), block.Seconds());
      AddRemoveKeeps(FirstState(sender, amount, msg.Circle()), block.Seconds(), msg.initialMembers, [], denied);
    }
  }

  lemma FirstMember(sender: Addr, amount: nat)
    ensures Voters(map[sender := EscrowStatus(amount, Voting)]) == {sender}
    ensures Sum(Paid(map[sender := EscrowStatus(amount, Voting)])) == amount
  {
    var none: map<Addr, EscrowStatus> := map[];
    var escrows := map[sender := EscrowStatus(amount, Voting)];
    assert escrows == none[sender := EscrowStatus(amount, Voting)];
    assert Paid(none) == map[];
    PaidPut(none, sender, EscrowStatus(amount, Voting));
  }

  // ---------------------------------------------------------------- what every run guarantees

  /** In every reachable state: members and escrows agree, the total counts the voters, every voter
      has at least one token at stake, the settings are valid, and the escrows hold exactly what
      came in less what was refunded, sent and burned; and no internal check can fail next. */
  lemma ReachableConsistent(block: Block, sender: Addr, amount: nat, msg: InstantiateMsg, denied: set<Addr>,
                            calls: seq<Call>, next: Call)
    requires Instantiate(sender, amount, msg, denied).Ok?
    requires Ordered(block, calls) && LastBlock(block, calls).NotAfter(next.block)
    ensures
      var s := Run(Instantiate(sender, amount, msg, denied).value, calls);
      && s.members.Keys == s.escrows.Keys
      && (forall a :: a in s.escrows ==> (s.members[a] == 1 <==> s.escrows[a].status == Voting) && s.members[a] <= 1)
      && s.total == |Voters(s.escrows)|
      && (forall a :: a in s.escrows && (s.escrows[a].status == Voting || s.escrows[a].status.PendingPaid?) ==>
            s.escrows[a].paid >= ONE_TGD)
      && s.circle.Validate().Ok?
      && Sum(Paid(s.escrows)) == s.ledger.deposited - s.ledger.refunded - s.ledger.sent - s.ledger.burned
      && (Handle(s, next).Err? ==> !Impossible(Handle(s, next).error))
  {
    hide Handle, Instantiate, Run;
    InstantiateEstablishes(block, sender, amount, msg, denied);
    var s0 := Instantiate(sender, amount, msg, denied).value;
    RunKeeps(s0, block, calls);
    var s := Run(s0, calls);
    StepKeeps(s, LastBlock(block, calls), next);
    assert s.total == |Voters(s.escrows)|;
  }

  /** In every reachable state the counter of a batch covers its pending members, and a batch that
      was promoted before its grace period ended has none. */
  lemma ReachableBatches(block: Block, sender: Addr, amount: nat, msg: InstantiateMsg, denied: set<Addr>,
                         calls: seq<Call>, id: nat)
    requires Instantiate(sender, amount, msg, denied).Ok? && Ordered(block, calls)
    ensures
      var s := Run(Instantiate(sender, amount, msg, denied).value, calls);
      var waiting := Waiting(s.escrows, id);
      && (waiting != {} ==> id in s.batches)
      && (id in s.batches ==> |waiting| <= s.batches[id].waitingEscrow)
      && (id in s.batches && s.batches[id].batchPromoted ==>
            LastBlock(block, calls).Seconds() >= s.batches[id].graceEndsAt ||
            waiting == {})
  {
    hide Instantiate, Run;
    InstantiateEstablishes(block, sender, amount, msg, denied);
    var s0 := Instantiate(sender, amount, msg, denied).value;
    RunKeeps(s0, block, calls);
    var s := Run(s0, calls);
    var waiting := Waiting(s.escrows, id);
    if waiting != {} {
      var a :| a in waiting;
      assert s.escrows[a].status.proposalId in s.batches;
    }
  }

  // ---------------------------------------------------------------- the batch that cannot be promoted

  /** Promotion by timeout works exactly if every member of every ready batch still has an entry. */
  lemma {:induction false} ConvertBatchesSucceedsIff(s: State, ids: seq<nat>)
    requires forall i :: 0 <= i < |ids| ==> ids[i] in s.batches
    ensures ConvertBatches(s, ids).Ok? <==>
      forall i, a :: 0 <= i < |ids| && a in s.batches[ids[i]].members ==> a in s.escrows
    decreases |ids|
  {
    if ids == [] {
    } else {
      ConvertEachSucceedsIff(s, s.batches[ids[0]].members);
      var r := ConvertAllPaid(s, ids[0], s.batches[ids[0]]);
      if r.Ok? {
        ConvertAllFrame(s, ids[0]);
        ConvertBatchesSucceedsIff(r.value, ids[1..]);
        assert forall i :: 0 < i < |ids| ==> ids[i] == ids[1..][i - 1];
      }
    }
  }

  lemma ConvertAllFrame(s: State, id: nat)
    requires id in s.batches && ConvertAllPaid(s, id, s.batches[id]).Ok?
    ensures
      var next := ConvertAllPaid(s, id, s.batches[id]).value;
      && next.escrows.Keys == s.escrows.Keys && next.batches.Keys == s.batches.Keys
      && forall p :: p in s.batches ==> next.batches[p].members == s.batches[p].members
  {
    ConvertEachResult(s, s.batches[id].members);
    ConvertEachBatches(s, s.batches[id].members);
  }

  lemma {:induction false} ConvertEachBatches(s: State, addrs: seq<Addr>)
    ensures ConvertEach(s, addrs).Ok? ==> ConvertEach(s, addrs).value.0.batches == s.batches
    decreases |addrs|
  {
    if addrs == [] {
    } else {
      var r := ConvertIfPaid(s, addrs[0]);
      if r.Ok? {
        ConvertEachBatches(r.value.0, addrs[1..]);
      }
    }
  }

  lemma {:induction false} DemoteEachFrame(s: State, id: nat, addrs: seq<Addr>)
    ensures
      var r := DemoteEach(s, id, addrs);
      r.Ok? ==> r.value.escrows.Keys == s.escrows.Keys && r.value.batches == s.batches
    decreases |addrs|
  {
    if addrs == [] {
    } else if addrs[0] in s.escrows {
      var escrow := s.escrows[addrs[0]].(status := MemberStatus.Pending(id));
      var r := TakeVote(s.(escrows := s.escrows[addrs[0] := escrow]), addrs[0]);
      if r.Ok? {
        DemoteEachFrame(r.value, id, addrs[1..]);
      }
    }
  }

  lemma {:induction false} PromoteEachFrame(s: State, addrs: seq<Addr>)
    ensures PromoteEach(s, addrs).escrows.Keys == s.escrows.Keys && PromoteEach(s, addrs).batches == s.batches
    decreases |addrs|
  {
    if addrs == [] {
    } else if addrs[0] in s.escrows && s.escrows[addrs[0]].status.Pending? {
      var e := s.escrows[addrs[0]].(status := PendingPaid(s.escrows[addrs[0]].status.proposalId));
      PromoteEachFrame(s.(escrows := s.escrows[addrs[0] := e]), addrs[1..]);
    }
  }

  /** A change of escrow removes nobody, and a batch it adds is one of members. */
  lemma EscrowCheckFrame(s: State, block: Block)
    requires CheckPendingEscrow(s, block).Ok?
    ensures
      var next := CheckPendingEscrow(s, block).value;
      && next.escrows.Keys == s.escrows.Keys
      && (forall id :: id in s.batches ==> id in next.batches && next.batches[id] == s.batches[id])
      && (forall id :: id in next.batches && id !in s.batches ==>
            forall a :: a in next.batches[id].members ==> a in s.escrows)
  {
    hide DemoteEach, PromoteEach;
    if s.circle.escrowPending.Some? {
      var p := s.circle.escrowPending.value;
      DemoteEachFrame(s, p.proposalId, BelowEscrowVoters(s.escrows, p.amount));
      PromoteEachFrame(s, PaidPending(s.escrows, p.amount));
    }
  }

  /** Everybody named in a batch that is ready still has an entry. */
  ghost predicate NobodyMissing(s: State, now: nat) {
    forall id :: id in s.batches && s.batches[id].IsReady(now) ==> Names(s.batches[id].members) <= s.escrows.Keys
  }

  /** Checking the pending changes, which every new proposal starts with, works exactly if nobody
      named in a ready batch has left: a pending member who leaves unpaid before the promotion
      blocks both, until a proposal made earlier adds the address again. */
  lemma CheckPendingSucceedsIff(s: State, block: Block)
    requires Inv(s, block.Seconds())
    ensures CheckAllPending(s, block).Ok? <==> NobodyMissing(s, block.Seconds())
  {
    hide Inv, CheckPendingEscrow, ConvertBatches, Ascending, NobodyMissing;
    CheckPendingEscrowKeeps(s, block);
    EscrowCheckFrame(s, block);
    var next := CheckPendingEscrow(s, block).value;
    var ready := ReadyBatches(next.batches, block.Seconds());
    forall i | 0 <= i < |ready| ensures ready[i] in next.batches {
      assert ready[i] in ready;
    }
    ConvertBatchesSucceedsIff(next, ready);
    ReadyMembers(s, next, block.Seconds(), ready);
  }

  lemma ReadyMembers(s: State, next: State, now: nat, ready: seq<nat>)
    requires ready == ReadyBatches(next.batches, now)
    requires next.escrows.Keys == s.escrows.Keys
    requires forall id :: id in s.batches ==> id in next.batches && next.batches[id] == s.batches[id]
    requires forall id :: id in next.batches && id !in s.batches ==>
               forall a :: a in next.batches[id].members ==> a in s.escrows
    requires forall i :: 0 <= i < |ready| ==> ready[i] in next.batches
    ensures (forall i, a :: 0 <= i < |ready| && a in next.batches[ready[i]].members ==> a in next.escrows)
            <==> NobodyMissing(s, now)
  {
    hide Ascending;
    assert forall id :: id in ready <==> id in next.batches && next.batches[id].IsReady(now);
    if forall i, a :: 0 <= i < |ready| && a in next.batches[ready[i]].members ==> a in next.escrows {
      forall id | id in s.batches && s.batches[id].IsReady(now) ensures Names(s.batches[id].members) <= s.escrows.Keys {
        assert id in ready;
        var i :| 0 <= i < |ready| && ready[i] == id;
        assert forall a :: a in s.batches[id].members ==> a in next.batches[ready[i]].members;
      }
    } else {
      var i, a :| 0 <= i < |ready| && a in next.batches[ready[i]].members && a !in next.escrows;
      assert ready[i] in ready;
      assert a in Names(s.batches[ready[i]].members);
    }
  }

  /** One pending member who never paid, and leaves, is enough: when the grace period of his batch
      is over, checking the pending changes fails. */
  lemma LeaverBlocksCheck(s: State, block: Block, leaver: Addr, id: nat, later: Block)
    requires Inv(s, block.Seconds()) && block.NotAfter(later)
    requires leaver in s.escrows && s.escrows[leaver] == EscrowStatus(0, MemberStatus.Pending(id))
    requires id in s.batches && leaver in s.batches[id].members
    requires !s.batches[id].batchPromoted && s.batches[id].graceEndsAt <= later.Seconds()
    ensures Leave(s, block, leaver).Ok?
    ensures CheckAllPending(Leave(s, block, leaver).value, later).Err?
  {
    hide Inv, CheckAllPending;
    LeaveKeeps(s, block, leaver);
    var next := Leave(s, block, leaver).value;
    SecondsMonotone(block, later);
    InvLater(next, block.Seconds(), later.Seconds());
    CheckPendingSucceedsIff(next, later);
    assert leaver in Names(next.batches[id].members);
  }
}
