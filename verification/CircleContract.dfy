/**
 The trusted circle as the contract runs it: entry points that load, change and save the stored
 items, with loops over batch members, demoted members and punishments. Every method is proved
 to do what the function of the same operation says; a failing message is rolled back.
 */
module CircleContract {
  import opened Base
  import opened Sums
  import opened Voting
  import opened Circle

  class TrustedCircleContract {
    var circle: TrustedCircle
    var members: map<Addr, nat>
    var escrows: map<Addr, EscrowStatus>
    var total: nat
    var batches: map<nat, Batch>
    var proposals: map<nat, Proposal>
    var proposalCount: nat
    var byExpiry: map<nat, nat>
    var ballots: map<(nat, Addr), Ballot>
    ghost var ledger: Ledger

    ghost function Storage(): State
      reads this
    {
      State(circle, members, escrows, total, batches, proposals, proposalCount, byExpiry, ballots, ledger)
    }

    constructor (sender: Addr, amount: nat, circle: TrustedCircle)
      ensures Storage() == FirstState(sender, amount, circle)
    {
      this.circle := circle;
      members, escrows := map[sender := VOTING_POINTS], map[sender := EscrowStatus(amount, Voting)];
      total, proposalCount := VOTING_POINTS, 0;
      batches, proposals, byExpiry, ballots := map[], map[], map[], map[];
      ledger := Ledger(amount, 0, 0, 0, []);
    }

    /** The instantiate entry point: no contract comes about from an invalid message. */
    static method Create(sender: Addr, amount: nat, msg: InstantiateMsg, denied: set<Addr>)
      returns (r: Result<TrustedCircleContract, Error>)
      ensures match Instantiate(sender, amount, msg, denied)
              case Ok(s) => r.Ok? && fresh(r.value) && r.value.Storage() == s
              case Err(e) => r == Err(e)
    {
      var circle := msg.Circle();
      var valid := circle.Validate();
      if valid.Err? {
        return Err(valid.error);
      }
      if amount == 0 {
        return Err(InvalidPayment);
      }
      if amount < circle.GetEscrow() {
        return Err(InsufficientFunds);
      }
      var contract := new TrustedCircleContract(sender, amount, circle);
      var added := contract.AddRemoveNonVotingMembers(msg.initialMembers, [], denied);
      if added.Err? {
        return Err(added.error);
      }
      return Ok(contract);
    }

    // -------------------------------------------------------------- promotion

    method StoreBatch(block: Block, id: nat, grace: nat, addrs: seq<Addr>) returns (r: Result<(), Error>)
      modifies `batches
      ensures Does(r, CreateBatch(old(Storage()), block, id, grace, addrs), Storage())
    {
      if addrs != [] {
        if id in batches {
          return Err(AlreadyUsedProposal);
        }
        batches := batches[id := Batch(block.Seconds() + grace, |addrs|, false, addrs)];
      }
      return Ok(());
    }

    method ConvertToVoterIfPaid(a: Addr) returns (r: Result<bool, Error>)
      modifies `escrows, `members
      ensures match ConvertIfPaid(old(Storage()), a)
              case Ok((s, converted)) => r == Ok(converted) && Storage() == s
              case Err(e) => r == Err(e)
    {
      if a !in escrows {
        return Err(MissingEscrow);
      }
      if !escrows[a].status.PendingPaid? {
        return Ok(false);
      }
      escrows := escrows[a := escrows[a].(status := Voting)];
      members := members[a := VOTING_POINTS];
      return Ok(true);
    }

    method ConvertAllPaidMembersToVoters(id: nat, batch: Batch) returns (r: Result<(), Error>)
      modifies `escrows, `members, `batches, `total
      ensures Does(r, ConvertAllPaid(old(Storage()), id, batch), Storage())
    {
      var added := 0;
      ghost var before := Storage();
      for i := 0 to |batch.members|
        invariant Storage() == before.(escrows := escrows, members := members)
        invariant match ConvertEach(Storage(), batch.members[i..])
                  case Ok((last, n)) => ConvertEach(before, batch.members) == Ok((last, added + n))
                  case Err(e) => ConvertEach(before, batch.members) == Err(e)
      {
        assert batch.members[i..][1..] == batch.members[i + 1..];
        var converted := ConvertToVoterIfPaid(batch.members[i]);
        if converted.Err? {
          return Err(converted.error);
        }
        if converted.value {
          added := added + VOTING_POINTS;
        }
      }
      batches := batches[id := batch.(batchPromoted := true)];
      if added > 0 {
        total := total + added;
      }
      return Ok(());
    }

    method UpdateBatch(block: Block, id: nat, paid: Addr) returns (r: Result<(), Error>)
      modifies `escrows, `members, `batches, `total
      ensures Does(r, UpdateBatchAfterEscrowPaid(old(Storage()), block, id, paid), Storage())
    {
      if id !in batches {
        return Err(MissingBatch);
      }
      if batches[id].waitingEscrow == 0 {
        return Err(WaitingUnderflow);
      }
      var batch := batches[id].(waitingEscrow := batches[id].waitingEscrow - 1);
      if !batch.CanPromote(block) {
        batches := batches[id := batch];
        return Ok(());
      }
      if !batch.batchPromoted {
        r := ConvertAllPaidMembersToVoters(id, batch);
        return;
      }
      batches := batches[id := batch];
      var converted := ConvertToVoterIfPaid(paid);
      if converted.Err? {
        return Err(converted.error);
      }
      if converted.value {
        total := total + VOTING_POINTS;
      }
      return Ok(());
    }

    // -------------------------------------------------------------- escrow

    method ExecuteDepositEscrow(block: Block, sender: Addr, amount: nat) returns (r: Result<(), Error>)
      modifies `escrows, `members, `batches, `total, `ledger
      ensures Does(r, Deposit(old(Storage()), block, sender, amount), Storage())
    {
      if sender !in escrows {
        return Err(NotAMember);
      }
      if amount == 0 {
        return Err(InvalidPayment);
      }
      var escrow := escrows[sender].(paid := escrows[sender].paid + amount);
      match escrow.status {
        case Pending(id) =>
          ledger := ledger.(deposited := ledger.deposited + amount);
          if escrow.paid >= circle.GetEscrow() {
            escrows := escrows[sender := escrow.(status := PendingPaid(id))];
            r := UpdateBatch(block, id, sender);
            return;
          }
          escrows := escrows[sender := escrow];
          return Ok(());
        case PendingPaid(_) =>
        case Voting =>
        case NonVoting => return Err(InvalidStatus);
        case Leaving(_) => return Err(InvalidStatus);
      }
      ledger := ledger.(deposited := ledger.deposited + amount);
      escrows := escrows[sender := escrow];
      return Ok(());
    }

    method ExecuteReturnEscrow(block: Block, sender: Addr) returns (r: Result<(), Error>)
      modifies `escrows, `members, `ledger
      ensures Does(r, Return(old(Storage()), block, sender), Storage())
    {
      if sender !in escrows {
        return Err(NotAMember);
      }
      var escrow := escrows[sender];
      var refund := 0;
      match escrow.status {
        case Voting =>
          if escrow.paid < circle.GetEscrow() {
            return Err(BelowEscrow);
          }
          refund := escrow.paid - circle.GetEscrow();
        case Leaving(claimAt) =>
          if claimAt > block.Seconds() {
            return Err(CannotClaimYet);
          }
          refund := escrow.paid;
        case NonVoting => return Err(InvalidStatus);
        case Pending(_) => return Err(InvalidStatus);
        case PendingPaid(_) => return Err(InvalidStatus);
      }
      if refund == 0 {
        return Ok(());
      }
      var left := escrow.(paid := escrow.paid - refund);
      if left.paid == 0 {
        escrows := escrows - {sender};
        members := members - {sender};
      } else {
        escrows := escrows[sender := left];
      }
      ledger := ledger.(refunded := ledger.refunded + refund);
      return Ok(());
    }

    // -------------------------------------------------------------- leaving

    method AdjustOpenProposalsForLeaver(block: Block, leaver: Addr) returns (r: Result<(), Error>)
      modifies `proposals
      ensures match AdjustForLeaver(old(proposals), ballots, leaver, OpenProposalIds(byExpiry, block.Seconds()))
              case Ok(adjusted) => r.Ok? && proposals == adjusted
              case Err(e) => r == Err(e)
    {
      var ids := OpenProposalIds(byExpiry, block.Seconds());
      for i := 0 to |ids|
        invariant AdjustForLeaver(proposals, ballots, leaver, ids[i..])
               == AdjustForLeaver(old(proposals), ballots, leaver, ids)
      {
        assert ids[i..][1..] == ids[i + 1..];
        if (ids[i], leaver) !in ballots {
          if ids[i] !in proposals {
            return Err(MissingProposal);
          }
          if proposals[ids[i]].status == Open {
            var points := proposals[ids[i]].totalPoints;
            if points < VOTING_POINTS {
              return Err(PointsUnderflow);
            }
            proposals := proposals[ids[i] := proposals[ids[i]].(totalPoints := points - VOTING_POINTS)];
          }
        }
      }
      return Ok(());
    }

    method TakeVotingPoints(a: Addr) returns (r: Result<(), Error>)
      modifies `members, `total
      ensures Does(r, TakeVote(old(Storage()), a), Storage())
    {
      members := members[a := 0];
      if total < VOTING_POINTS {
        return Err(TotalUnderflow);
      }
      total := total - VOTING_POINTS;
      return Ok(());
    }

    method LongLeave(block: Block, leaver: Addr, escrow: EscrowStatus) returns (r: Result<(), Error>)
      modifies `escrows, `members, `total, `proposals
      ensures Does(r, TriggerLongLeave(old(Storage()), block, leaver, escrow), Storage())
    {
      hide AdjustForLeaver, OpenProposalIds, Ascending;
      if escrow.status == Voting {
        r := TakeVotingPoints(leaver);
        if r.Err? {
          return;
        }
        r := AdjustOpenProposalsForLeaver(block, leaver);
        if r.Err? {
          return;
        }
      }
      var claimAt := block.Seconds() + circle.rules.PeriodSeconds() * 2;
      escrows := escrows[leaver := escrow.(status := Leaving(claimAt))];
      return Ok(());
    }

    method ExecuteLeaveTrustedCircle(block: Block, sender: Addr) returns (r: Result<(), Error>)
      modifies `escrows, `members, `total, `proposals
      ensures Does(r, Leave(old(Storage()), block, sender), Storage())
    {
      if sender !in escrows {
        return Err(NotAMember);
      }
      var escrow := escrows[sender];
      if escrow.status.NonVoting? || (escrow.status.Pending? && escrow.paid == 0) {
        members := members - {sender};
        escrows := escrows - {sender};
        return Ok(());
      }
      if escrow.status.Leaving? {
        return Err(InvalidStatus);
      }
      r := LongLeave(block, sender, escrow);
    }

    // -------------------------------------------------------------- pending changes

    method DemoteMembers(id: nat, demoted: seq<Addr>) returns (r: Result<(), Error>)
      modifies `escrows, `members, `total
      ensures Does(r, DemoteEach(old(Storage()), id, demoted), Storage())
    {
      ghost var spec := DemoteEach(Storage(), id, demoted);
      for i := 0 to |demoted|
        invariant DemoteEach(Storage(), id, demoted[i..]) == spec
      {
        assert demoted[i..][1..] == demoted[i + 1..];
        if demoted[i] !in escrows {
          return Err(MissingEscrow);
        }
        escrows := escrows[demoted[i] := escrows[demoted[i]].(status := MemberStatus.Pending(id))];
        r := TakeVotingPoints(demoted[i]);
        if r.Err? {
          return;
        }
      }
      return Ok(());
    }

    method PromotePaid(promoted: seq<Addr>)
      requires forall i :: 0 <= i < |promoted| ==> promoted[i] in escrows && escrows[promoted[i]].status.Pending?
      requires StrictlyAscending(promoted)
      modifies `escrows
      ensures Storage() == PromoteEach(old(Storage()), promoted)
    {
      ghost var spec := PromoteEach(Storage(), promoted);
      for i := 0 to |promoted|
        invariant forall j :: i <= j < |promoted| ==> promoted[j] in escrows && escrows[promoted[j]].status.Pending?
        invariant PromoteEach(Storage(), promoted[i..]) == spec
      {
        assert promoted[i..][1..] == promoted[i + 1..];
        var escrow := escrows[promoted[i]];
        escrows := escrows[promoted[i] := escrow.(status := PendingPaid(escrow.status.proposalId))];
      }
    }

    method DemotePromoteMembers(block: Block, id: nat, amount: nat, newAmount: nat) returns (r: Result<(), Error>)
      modifies `escrows, `members, `total, `batches
      ensures Does(r, DemotePromote(old(Storage()), block, id, amount, newAmount), Storage())
    {
      if newAmount > amount {
        var demoted := BelowEscrowVoters(escrows, newAmount);
        r := DemoteMembers(id, demoted);
        if r.Err? {
          return;
        }
        r := StoreBatch(block, id, 0, demoted);
        return;
      }
      if newAmount < amount {
        var promoted := PaidPending(escrows, newAmount);
        forall i | 0 <= i < |promoted| ensures promoted[i] in escrows && escrows[promoted[i]].status.Pending? {
          assert promoted[i] in promoted;
        }
        PromotePaid(promoted);
      }
      return Ok(());
    }

    method ApplyPendingEscrow(block: Block) returns (r: Result<(), Error>)
      modifies `circle, `escrows, `members, `total, `batches
      ensures Does(r, CheckPendingEscrow(old(Storage()), block), Storage())
    {
      if circle.escrowPending.Some? {
        var p := circle.escrowPending.value;
        if block.Seconds() >= p.graceEndsAt {
          r := DemotePromoteMembers(block, p.proposalId, circle.escrowAmount, p.amount);
          if r.Err? {
            return;
          }
          circle := circle.(escrowAmount := p.amount, escrowPending := None);
        }
      }
      return Ok(());
    }

    method CheckPendingBatches(block: Block) returns (r: Result<(), Error>)
      modifies `escrows, `members, `total, `batches
      ensures Does(r, ConvertBatches(old(Storage()), ReadyBatches(old(batches), block.Seconds())), Storage())
    {
      var ready := ReadyBatches(batches, block.Seconds());
      ghost var spec := ConvertBatches(Storage(), ready);
      for i := 0 to |ready|
        invariant ConvertBatches(Storage(), ready[i..]) == spec
      {
        assert ready[i..][1..] == ready[i + 1..];
        if ready[i] !in batches {
          return Err(MissingBatch);
        }
        r := ConvertAllPaidMembersToVoters(ready[i], batches[ready[i]]);
        if r.Err? {
          return;
        }
      }
      return Ok(());
    }

    method ExecuteCheckPending(block: Block) returns (r: Result<(), Error>)
      modifies `circle, `escrows, `members, `total, `batches
      ensures Does(r, CheckAllPending(old(Storage()), block), Storage())
    {
      r := ApplyPendingEscrow(block);
      if r.Err? {
        return;
      }
      r := CheckPendingBatches(block);
    }

    // -------------------------------------------------------------- proposals

    method ExecutePropose(block: Block, sender: Addr, content: Content, others: Others)
      returns (r: Result<(), Error>)
      modifies this
      ensures Does(r, ProposeContent(old(Storage()), block, sender, content, others), Storage())
    {
      hide CheckAllPending, ValidateContent, VotesNeeded, Proposal.IsPassed;
      if block.height > 0 {
        r := ExecuteCheckPending(block);
        if r.Err? {
          return;
        }
      }
      var power := if sender in members then members[sender] else 0;
      if power == 0 {
        return Err(Unauthorized);
      }
      r := ValidateProposal(block, content, others);
      if r.Err? {
        return;
      }
      var expires := block.time + circle.rules.PeriodSeconds() * NANOS_PER_SECOND;
      var draft := Proposal(block.height, expires, content, Open, circle.rules, total, NO_VOTES.AddVote(Yes, power));
      var updated := draft.UpdateStatus(block);
      if updated.Err? {
        return Err(updated.error);
      }
      proposalCount := proposalCount + 1;
      proposals := proposals[proposalCount := updated.value];
      byExpiry := byExpiry[expires / NANOS_PER_SECOND := proposalCount];
      ballots := ballots[(proposalCount, sender) := Ballot(power, Yes)];
      return Ok(());
    }

    method ValidateProposal(block: Block, content: Content, others: Others) returns (r: Result<(), Error>)
      ensures r == ValidateContent(Storage(), block, content, others)
    {
      match content {
        case EditTrustedCircle(adj) =>
          if circle.editDisabled {
            return Err(FrozenRules);
          }
          var edited := circle.ApplyAdjustments(block, DUMMY_PROPOSAL_ID, adj);
          if edited.Err? {
            return Err(edited.error);
          }
          return edited.value.Validate();
        case AddRemoveNonVotingMembers(remove, add) =>
          if add == [] && remove == [] {
            return Err(NoMembers);
          }
          r := ValidateAddresses(add, others);
        case AddVotingMembers(voters) =>
          if voters == [] {
            return Err(NoMembers);
          }
          r := ValidateAddresses(voters, others);
        case PunishMembers(ps) =>
          if ps == [] {
            return Err(NoPunishments);
          }
          r := CheckPunishments(ps);
        case WhitelistContract(a) => return if a in others.contracts then Ok(()) else Err(NotAContract);
        case RemoveContract(a) => return if a in others.contracts then Ok(()) else Err(NotAContract);
      }
    }

    method ValidateAddresses(addrs: seq<Addr>, others: Others) returns (r: Result<(), Error>)
      ensures r == ValidateAdded(addrs, others)
    {
      for i := 0 to |addrs|
        invariant forall j :: 0 <= j < i ==> addrs[j] !in others.contracts
      {
        if addrs[i] in others.contracts {
          return Err(NotAHuman);
        }
      }
      for i := 0 to |addrs|
        invariant forall j :: 0 <= j < i ==> addrs[j] !in others.denied
      {
        if addrs[i] in others.denied {
          return Err(DeniedAddress);
        }
      }
      return Ok(());
    }

    method CheckPunishments(ps: seq<Punishment>) returns (r: Result<(), Error>)
      ensures r == ValidatePunishments(Storage(), ps)
    {
      for i := 0 to |ps|
        invariant ValidatePunishments(Storage(), ps[i..]) == ValidatePunishments(Storage(), ps)
      {
        assert ps[i..][1..] == ps[i + 1..];
        var p := ps[i];
        if p.DistributeEscrow? && p.recipients == [] {
          return Err(EmptyDistributionList);
        }
        if p.slashing > ONE {
          return Err(InvalidSlashingPercentage);
        }
        if p.member !in escrows {
          return Err(MissingEscrow);
        }
        if escrows[p.member].status == NonVoting {
          return Err(PunishInvalidMemberStatus);
        }
      }
      return Ok(());
    }

    method ExecuteVote(block: Block, sender: Addr, id: nat, vote: Vote, power: nat) returns (r: Result<(), Error>)
      modifies `proposals, `ballots
      ensures Does(r, VoteOn(old(Storage()), block, sender, id, vote, power), Storage())
    {
      if id !in proposals {
        return Err(MissingProposal);
      }
      var p := proposals[id];
      if p.status !in {Open, Passed} {
        return Err(NotOpen);
      }
      if p.IsExpired(block) {
        return Err(Expired);
      }
      if power == 0 {
        return Err(Unauthorized);
      }
      if sender !in escrows {
        return Err(MissingEscrow);
      }
      if escrows[sender].status != Voting {
        return Err(InvalidStatus);
      }
      if (id, sender) in ballots {
        return Err(AlreadyVoted);
      }
      var updated := p.(votes := p.votes.AddVote(vote, power)).UpdateStatus(block);
      if updated.Err? {
        return Err(updated.error);
      }
      ballots := ballots[(id, sender) := Ballot(power, vote)];
      proposals := proposals[id := updated.value];
      return Ok(());
    }

    method ExecuteClose(block: Block, id: nat) returns (r: Result<(), Error>)
      modifies `proposals
      ensures Does(r, CloseProposal(old(Storage()), block, id), Storage())
    {
      if id !in proposals {
        return Err(MissingProposal);
      }
      if proposals[id].status in {Executed, Rejected, Passed} {
        return Err(WrongCloseStatus);
      }
      if !proposals[id].IsExpired(block) {
        return Err(NotExpired);
      }
      proposals := proposals[id := proposals[id].(status := Rejected)];
      return Ok(());
    }

    // -------------------------------------------------------------- executing proposals

    method AddNonVotingMembers(add: seq<Addr>, denied: set<Addr>) returns (r: Result<(), Error>)
      modifies `members, `escrows
      ensures r == if AnyIn(add, denied) then Err(DeniedAddress) else Ok(())
      ensures r.Ok? ==> Storage() == AddNonVoting(old(Storage()), add)
    {
      ghost var spec := AddNonVoting(Storage(), add);
      for i := 0 to |add|
        invariant AddNonVoting(Storage(), add[i..]) == spec
        invariant forall j :: 0 <= j < i ==> add[j] !in denied
      {
        assert add[i..][1..] == add[i + 1..];
        if add[i] in denied {
          return Err(DeniedAddress);
        }
        if add[i] !in members {
          members := members[add[i] := 0];
          escrows := escrows[add[i] := EscrowStatus(0, NonVoting)];
        }
      }
      return Ok(());
    }

    method RemoveNonVotingMembers(remove: seq<Addr>) returns (r: Result<(), Error>)
      modifies `members, `escrows
      ensures Does(r, RemoveNonVoting(old(Storage()), remove), Storage())
    {
      ghost var spec := RemoveNonVoting(Storage(), remove);
      for i := 0 to |remove|
        invariant RemoveNonVoting(Storage(), remove[i..]) == spec
      {
        assert remove[i..][1..] == remove[i + 1..];
        if remove[i] in escrows {
          if escrows[remove[i]].status != NonVoting {
            return Err(VotingMember);
          }
          members := members - {remove[i]};
          escrows := escrows - {remove[i]};
        }
      }
      return Ok(());
    }

    method AddRemoveNonVotingMembers(add: seq<Addr>, remove: seq<Addr>, denied: set<Addr>)
      returns (r: Result<(), Error>)
      modifies `members, `escrows
      ensures Does(r, AddRemoveNonVoting(old(Storage()), add, remove, denied), Storage())
    {
      r := AddNonVotingMembers(add, denied);
      if r.Err? {
        return;
      }
      r := RemoveNonVotingMembers(remove);
    }

    method AddVotingMembers(block: Block, id: nat, voters: seq<Addr>, denied: set<Addr>)
      returns (r: Result<(), Error>)
      modifies `members, `escrows, `batches
      ensures Does(r, AddVoting(old(Storage()), block, id, voters, denied), Storage())
    {
      for i := 0 to |voters|
        invariant Storage() == old(Storage())
        invariant forall j :: 0 <= j < i ==> voters[j] !in denied
      {
        if voters[i] in denied {
          return Err(DeniedAddress);
        }
      }
      r := StoreBatch(block, id, circle.rules.PeriodSeconds(), voters);
      if r.Err? {
        return;
      }
      ghost var spec := AddPending(Storage(), id, voters);
      for i := 0 to |voters|
        invariant AddPending(Storage(), id, voters[i..]) == spec
      {
        assert voters[i..][1..] == voters[i + 1..];
        if voters[i] !in escrows || escrows[voters[i]].status == NonVoting {
          members := members[voters[i] := 0];
          escrows := escrows[voters[i] := EscrowStatus(0, MemberStatus.Pending(id))];
        }
      }
      return Ok(());
    }

    /** Takes the slashed part of an escrow: one payment for each recipient, or one burning. */
    method Slash(paid: nat, p: Punishment) returns (r: Result<nat, Error>)
      modifies `ledger
      ensures match SlashOf(paid, p)
              case Ok(slash) => r == Ok(slash.remaining) && ledger == Charged(old(ledger), slash)
              case Err(e) => r == Err(e) && ledger == old(ledger)
    {
      var slashed := paid * p.slashing / ONE;
      if slashed > paid {
        return Err(SlashUnderflow);
      }
      var remaining := paid - slashed;
      if slashed > 0 {
        match p {
          case DistributeEscrow(_, _, recipients, _) =>
            if recipients == [] {
              return Err(DivisionByZero);
            }
            var each := slashed / |recipients|;
            for i := 0 to |recipients|
              invariant ledger == old(ledger).(sent := old(ledger).sent + each * i,
                                               payments := old(ledger).payments + PayEach(recipients[..i], each))
            {
              ghost var payment := Payment(recipients[i], each);
              assert PayEach(recipients[..i + 1], each) == PayEach(recipients[..i], each) + [payment];
              ledger := ledger.(sent := ledger.sent + each, payments := ledger.payments + [payment]);
            }
            assert recipients[..|recipients|] == recipients;
            remaining := remaining + slashed % |recipients|;
          case BurnEscrow(_, _, _) =>
            ledger := ledger.(burned := ledger.burned + slashed);
        }
      }
      return Ok(remaining);
    }

    method PunishMember(block: Block, id: nat, p: Punishment) returns (r: Result<bool, Error>)
      modifies `members, `escrows, `total, `proposals, `ledger
      ensures match Punish(old(Storage()), block, id, p)
              case Ok((s, demoted)) => r == Ok(demoted) && Storage() == s
              case Err(e) => r == Err(e)
    {
      if p.member !in escrows {
        return Err(MissingEscrow);
      }
      var escrow := escrows[p.member];
      if escrow.status == NonVoting {
        return Err(PunishInvalidMemberStatus);
      }
      var remaining := Slash(escrow.paid, p);
      if remaining.Err? {
        return Err(remaining.error);
      }
      escrow := escrow.(paid := remaining.value);
      if p.kickOut {
        var left := LongLeave(block, p.member, escrow);
        return if left.Err? then Err(left.error) else Ok(false);
      }
      if escrow.paid < circle.GetEscrow() {
        if escrow.status == Voting {
          var taken := TakeVotingPoints(p.member);
          if taken.Err? {
            return Err(taken.error);
          }
        }
        escrows := escrows[p.member := escrow.(status := MemberStatus.Pending(id))];
        return Ok(true);
      }
      escrows := escrows[p.member := escrow];
      return Ok(false);
    }

    method PunishMembers(block: Block, id: nat, ps: seq<Punishment>) returns (r: Result<(), Error>)
      modifies `members, `escrows, `total, `proposals, `ledger, `batches
      ensures Does(r, PunishAll(old(Storage()), block, id, ps), Storage())
    {
      var demoted: seq<Addr> := [];
      ghost var before := Storage();
      ghost var all := PunishEach(before, block, id, ps);
      assert ps[0..] == ps && (all.Ok? ==> [] + all.value.1 == all.value.1);
      for i := 0 to |ps|
        invariant match PunishEach(Storage(), block, id, ps[i..])
                  case Ok((last, others)) => PunishEach(before, block, id, ps) == Ok((last, demoted + others))
                  case Err(e) => PunishEach(before, block, id, ps) == Err(e)
      {
        assert ps[i..][1..] == ps[i + 1..];
        var punished := PunishMember(block, id, ps[i]);
        if punished.Err? {
          return Err(punished.error);
        }
        if punished.value {
          ghost var rest := PunishEach(Storage(), block, id, ps[i + 1..]);
          assert rest.Ok? ==> demoted + ([ps[i].member] + rest.value.1) == demoted + [ps[i].member] + rest.value.1;
          demoted := demoted + [ps[i].member];
        } else {
          ghost var rest := PunishEach(Storage(), block, id, ps[i + 1..]);
          assert rest.Ok? ==> [] + rest.value.1 == rest.value.1;
        }
      }
      assert ps[|ps|..] == [];
      assert demoted + [] == demoted;
      r := StoreBatch(block, id, 0, demoted);
    }

    method ProposalExecute(block: Block, id: nat, content: Content, denied: set<Addr>)
      returns (r: Result<(), Error>)
      modifies this
      ensures Does(r, ExecuteContent(old(Storage()), block, id, content, denied), Storage())
    {
      match content {
        case AddRemoveNonVotingMembers(remove, add) => r := AddRemoveNonVotingMembers(add, remove, denied);
        case EditTrustedCircle(adj) =>
          var edited := circle.ApplyAdjustments(block, id, adj);
          if edited.Err? {
            return Err(edited.error);
          }
          circle := edited.value;
          return Ok(());
        case AddVotingMembers(voters) => r := AddVotingMembers(block, id, voters, denied);
        case PunishMembers(ps) => r := PunishMembers(block, id, ps);
        case WhitelistContract(a) => r := AddRemoveNonVotingMembers([a], [], denied);
        case RemoveContract(a) => r := AddRemoveNonVotingMembers([], [a], denied);
      }
    }

    method ExecuteExecute(block: Block, id: nat, denied: set<Addr>) returns (r: Result<(), Error>)
      modifies this
      ensures Does(r, ExecuteProposal(old(Storage()), block, id, denied), Storage())
    {
      if id !in proposals {
        return Err(MissingProposal);
      }
      var p := proposals[id];
      if p.content.EditTrustedCircle? && circle.editDisabled {
        return Err(FrozenRules);
      }
      if p.status != Passed {
        return Err(WrongExecuteStatus);
      }
      proposals := proposals[id := p.(status := Executed)];
      r := ProposalExecute(block, id, p.content, denied);
    }

    // -------------------------------------------------------------- transactions

    /** The execute entry point. */
    method Dispatch(call: Call) returns (r: Result<(), Error>)
      modifies this
      ensures Does(r, Handle(old(Storage()), call), Storage())
    {
      hide Deposit, Return, ProposeContent, VoteOn, ExecuteProposal, CloseProposal, Leave, CheckAllPending;
      match call.message {
        case DepositEscrow(amount) => r := ExecuteDepositEscrow(call.block, call.sender, amount);
        case ReturnEscrow => r := ExecuteReturnEscrow(call.block, call.sender);
        case Propose(content, others) => r := ExecutePropose(call.block, call.sender, content, others);
        case CastVote(id, vote, power) => r := ExecuteVote(call.block, call.sender, id, vote, power);
        case Execute(id, others) => r := ExecuteExecute(call.block, id, others.denied);
        case Close(id) => r := ExecuteClose(call.block, id);
        case LeaveTrustedCircle => r := ExecuteLeaveTrustedCircle(call.block, call.sender);
        case CheckPending => r := ExecuteCheckPending(call.block);
      }
    }

    /** One transaction: a failing message leaves the storage as it was. */
    method Transact(call: Call) returns (r: Result<(), Error>)
      modifies this
      ensures Storage() == Step(old(Storage()), call)
      ensures r.Ok? <==> Handle(old(Storage()), call).Ok?
    {
      var circle0, members0, escrows0, total0, batches0 := circle, members, escrows, total, batches;
      var proposals0, proposalCount0, byExpiry0, ballots0 := proposals, proposalCount, byExpiry, ballots;
      ghost var ledger0 := ledger;
      r := Dispatch(call);
      if r.Err? {
        circle, members, escrows, total, batches := circle0, members0, escrows0, total0, batches0;
        proposals, proposalCount, byExpiry, ballots := proposals0, proposalCount0, byExpiry0, ballots0;
        ledger := ledger0;
      }
    }
  }
}
