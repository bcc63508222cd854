/**
 Proposals are made, voted on and executed as the reference of the circle says, and so every message does
 what it says.
 */
module CircleExecution {
  import opened Base
  import opened Sums
  import opened Voting
  import opened Circle
  import opened CircleInvariant
  import opened CirclePromotion
  import opened CircleGovernance
  import opened CircleRuns
  import opened CircleEffects
  import opened CircleIndex
  import opened CircleConformance
  import R = CircleReference

  // ---------------------------------------------------------------- proposing

  lemma EditAccepted(s: State, block: Block, adj: Adjustments, others: Others)
    requires s.circle.Validate().Ok?
    ensures ValidateContent(s, block, EditTrustedCircle(adj), others).Ok?
        <==> R.ContentAccepted(s, EditTrustedCircle(adj), others)
  {
    hide IsBlank, Utf8Length;
  }

  lemma HumansAccepted(addrs: seq<Addr>, others: Others)
    ensures ValidateAdded(addrs, others).Ok? <==> R.AllHuman(addrs, others)
  {
    if R.AllHuman(addrs, others) {
      assert forall i :: 0 <= i < |addrs| ==> addrs[i] in addrs;
    }
  }

  lemma {:induction false} PunishmentsAccepted(s: State, ps: seq<Punishment>)
    ensures ValidatePunishments(s, ps).Ok? <==>
      forall i :: 0 <= i < |ps| ==>
        && ps[i].slashing <= ONE && (ps[i].DistributeEscrow? ==> ps[i].recipients != [])
        && ps[i].member in s.escrows && s.escrows[ps[i].member].status != NonVoting
    decreases |ps|
  {
    if ps == [] {
    } else {
      PunishmentsAccepted(s, ps[1..]);
      assert forall i :: 0 < i < |ps| ==> ps[i] == ps[1..][i - 1];
      assert forall i :: 0 <= i < |ps[1..]| ==> ps[1..][i] == ps[i + 1];
    }
  }

  lemma ContentConforms(s: State, block: Block, content: Content, others: Others)
    requires s.circle.Validate().Ok?
    ensures ValidateContent(s, block, content, others).Ok? <==> R.ContentAccepted(s, content, others)
  {
    hide ValidateAdded, ValidatePunishments, R.AllHuman, TrustedCircle.Validate;
    match content
    case EditTrustedCircle(adj) => EditAccepted(s, block, adj, others);
    case AddRemoveNonVotingMembers(_, add) => HumansAccepted(add, others);
    case AddVotingMembers(voters) => HumansAccepted(voters, others);
    case PunishMembers(ps) => PunishmentsAccepted(s, ps);
    case WhitelistContract(_) =>
    case RemoveContract(_) =>
  }

  /** What is stored once the pending changes have been checked. */
  function Draft(s: State, block: Block, content: Content): Proposal {
    Proposal(block.height, block.time + s.circle.rules.PeriodSeconds() * NANOS_PER_SECOND, content, Open,
             s.circle.rules, s.total, Votes(1, 0, 0, 0))
  }

  lemma DraftExpires(s: State, block: Block, content: Content)
    requires s.circle.rules.votingPeriod > 0
    ensures Draft(s, block, content).expires == block.time + s.circle.rules.votingPeriod * 86_400 * 1_000_000_000
    ensures Draft(s, block, content).expires > block.time
  {
  }

  /** The early tally by needed votes is the one by proportions. */
  lemma PassesEarlyIff(rules: Rules, votes: Votes, points: nat)
    ensures Enough(votes.yes + votes.no + votes.abstain + votes.veto, points, rules.quorum)
        <==> votes.Total() >= VotesNeeded(points, rules.quorum)
    ensures R.PassesEarly(rules, votes, points) <==>
      && rules.allowEndEarly && votes.abstain <= points && votes.Total() >= VotesNeeded(points, rules.quorum)
      && votes.yes >= VotesNeeded(points - votes.abstain, rules.threshold)
  {
    hide VotesNeeded, Enough;
    NeedMetIff(votes.Total(), points, rules.quorum);
    if votes.abstain <= points {
      NeedMetIff(votes.yes, points - votes.abstain, rules.threshold);
    }
  }

  lemma DraftStatus(s: State, block: Block, content: Content)
    requires s.total > 0 && Draft(s, block, content).expires > block.time
    ensures
      var p := Draft(s, block, content);
      p.UpdateStatus(block) ==
        Ok(p.(status := if R.PassesEarly(s.circle.rules, Votes(1, 0, 0, 0), s.total) then Passed else Open))
  {
    hide VotesNeeded, Rules.PeriodSeconds, R.PassesEarly;
    PassesEarlyIff(s.circle.rules, Votes(1, 0, 0, 0), s.total);
  }

  lemma DraftConforms(s: State, block: Block, sender: Addr, content: Content)
    requires s.circle.rules.votingPeriod > 0 && s.total > 0
    ensures
      var r := Draft(s, block, content).UpdateStatus(block);
      r.Ok? && R.Drafted(s, block, sender, content, CreateProposal(s, sender, 1, r.value))
  {
    hide Proposal.UpdateStatus, R.PassesEarly;
    DraftExpires(s, block, content);
    DraftStatus(s, block, content);
  }

  lemma ProposeAfterCheck(s: State, block: Block, sender: Addr, content: Content, others: Others)
    requires block.height > 0 ==> CheckAllPending(s, block).Ok?
    requires
      var checked := if block.height > 0 then CheckAllPending(s, block).value else s;
      Inv(checked, block.Seconds())
    ensures
      var checked := if block.height > 0 then CheckAllPending(s, block).value else s;
      var r := ProposeContent(s, block, sender, content, others);
      && (r.Ok? <==>
            sender in checked.escrows && checked.escrows[sender].status == Voting
            && R.ContentAccepted(checked, content, others))
      && (r.Ok? ==> R.Drafted(checked, block, sender, content, r.value))
  {
    hide CheckAllPending, ValidateContent, Proposal.UpdateStatus, R.Drafted, Inv, R.ContentAccepted;
    var checked := if block.height > 0 then CheckAllPending(s, block).value else s;
    InvSettings(checked, block.Seconds(), sender);
    ContentConforms(checked, block, content, others);
    if sender in checked.escrows && checked.escrows[sender].status == Voting {
      DraftConforms(checked, block, sender, content);
      assert NO_VOTES.AddVote(Yes, 1) == Votes(1, 0, 0, 0);
    }
  }

  lemma InvSettings(s: State, now: nat, a: Addr)
    requires Inv(s, now)
    ensures s.circle.Validate().Ok? && s.circle.rules.votingPeriod > 0
    ensures (a in s.members && s.members[a] != 0) <==> (a in s.escrows && s.escrows[a].status == Voting)
    ensures a in s.members && s.members[a] != 0 ==> s.members[a] == 1 && s.total > 0
  {
    if a in s.escrows && s.escrows[a].status == Voting {
      VoterCounted(s, a);
    }
  }

  lemma ProposeConforms(s: State, block: Block, sender: Addr, content: Content, others: Others, next: State)
    requires Inv(s, block.Seconds())
    ensures ProposeContent(s, block, sender, content, others) == Ok(next)
        <==> R.ProposalMade(s, block, sender, content, others, next)
  {
    hide Inv, CheckAllPending, ProposeContent, R.Prepared, R.Drafted, R.ContentAccepted;
    if block.height > 0 && CheckAllPending(s, block).Err? {
      NothingProposed(s, block, sender, content, others);
    } else {
      var checked := if block.height > 0 then CheckAllPending(s, block).value else s;
      CheckAllPendingKeeps(s, block);
      ProposeAfterCheck(s, block, sender, content, others);
      CheckPrepares(s, block, checked);
      PreparedOnly(s, block, checked);
      if ProposeContent(s, block, sender, content, others).Ok? {
        DraftedUnique(checked, block, sender, content, ProposeContent(s, block, sender, content, others).value, next);
      }
    }
  }

  lemma DraftedUnique(s: State, block: Block, sender: Addr, content: Content, one: State, other: State)
    requires R.Drafted(s, block, sender, content, one)
    ensures R.Drafted(s, block, sender, content, other) <==> one == other
  {
    hide R.PassesEarly;
  }

  lemma NothingProposed(s: State, block: Block, sender: Addr, content: Content, others: Others)
    requires Inv(s, block.Seconds()) && block.height > 0 && CheckAllPending(s, block).Err?
    ensures ProposeContent(s, block, sender, content, others).Err?
    ensures forall checked :: !R.Prepared(s, block, checked)
  {
    hide Inv, CheckAllPending, ValidateContent, Proposal.UpdateStatus, R.CheckEffect, R.CheckAccepted;
    CheckSucceedsIff(s, block);
  }

  lemma CheckPrepares(s: State, block: Block, checked: State)
    requires Inv(s, block.Seconds())
    requires if block.height > 0 then CheckAllPending(s, block) == Ok(checked) else checked == s
    ensures R.Prepared(s, block, checked)
  {
    hide Inv, CheckAllPending, R.CheckEffect, R.CheckAccepted;
    CheckSucceedsIff(s, block);
    if block.height > 0 {
      CheckConforms(s, block);
    }
  }

  lemma PreparedOnly(s: State, block: Block, checked: State)
    requires R.Prepared(s, block, checked)
    ensures forall t :: R.Prepared(s, block, t) ==> t == checked
  {
    hide R.CheckEffect, R.CheckAccepted;
    forall t | R.Prepared(s, block, t) ensures t == checked {
      if block.height > 0 {
        CheckUnique(s, block, t, checked);
      }
    }
  }

  // ---------------------------------------------------------------- voting and closing

  lemma AddVoteConforms(votes: Votes, vote: Vote, power: nat)
    ensures votes.AddVote(vote, power) == R.WithVote(votes, vote, power)
  {
  }

  lemma VoteConforms(s: State, block: Block, sender: Addr, id: nat, vote: Vote, power: nat, next: State)
    ensures VoteOn(s, block, sender, id, vote, power) == Ok(next) <==>
      && R.VoteAccepted(s, block, sender, id, power)
      && !R.TallyTraps(s.proposals[id], R.WithVote(s.proposals[id].votes, vote, power))
      && R.VoteEffect(s, sender, id, vote, power, next)
  {
    hide VotesNeeded, Votes.AddVote, R.WithVote, R.PassesEarly, Enough;
    if id in s.proposals {
      var p := s.proposals[id];
      AddVoteConforms(p.votes, vote, power);
      PassesEarlyIff(p.rules, R.WithVote(p.votes, vote, power), p.totalPoints);
    }
  }

  lemma CloseConforms(s: State, block: Block, id: nat, next: State)
    ensures CloseProposal(s, block, id) == Ok(next) <==>
      && R.CloseAccepted(s, block, id)
      && next == s.(proposals := s.proposals[id := s.proposals[id].(status := Rejected)])
  {
  }

  // ---------------------------------------------------------------- members added and removed

  lemma AddRemoveSame(s: State, add: seq<Addr>, remove: seq<Addr>, denied: set<Addr>)
    requires AddRemoveNonVoting(s, add, remove, denied).Ok?
    ensures
      var next := AddRemoveNonVoting(s, add, remove, denied).value;
      next == s.(escrows := next.escrows, members := next.members)
  {
    hide AddNonVoting, RemoveNonVoting, AnyIn;
    AddNonVotingWrites(s, add);
    RemoveNonVotingWrites(AddNonVoting(s, add), remove);
  }

  lemma {:induction false} AddNonVotingWrites(s: State, add: seq<Addr>)
    ensures
      var next := AddNonVoting(s, add);
      next == s.(escrows := next.escrows, members := next.members)
    decreases |add|
  {
    if add == [] {
    } else if add[0] in s.members {
      AddNonVotingWrites(s, add[1..]);
    } else {
      AddNonVotingWrites(Put(s, add[0], EscrowStatus(0, NonVoting)), add[1..]);
    }
  }

  lemma {:induction false} RemoveNonVotingWrites(s: State, remove: seq<Addr>)
    ensures RemoveNonVoting(s, remove).Ok? ==>
      var next := RemoveNonVoting(s, remove).value;
      next == s.(escrows := next.escrows, members := next.members)
    decreases |remove|
  {
    if remove == [] {
    } else if remove[0] !in s.escrows {
      RemoveNonVotingWrites(s, remove[1..]);
    } else if s.escrows[remove[0]].status == NonVoting {
      RemoveNonVotingWrites(s.(members := s.members - {remove[0]}, escrows := s.escrows - {remove[0]}), remove[1..]);
    }
  }

  lemma AddRemoveDoes(s: State, now: nat, add: seq<Addr>, remove: seq<Addr>, denied: set<Addr>)
    requires Inv(s, now) && AddRemoveNonVoting(s, add, remove, denied).Ok?
    ensures R.AddedAndRemoved(s, add, remove, denied, AddRemoveNonVoting(s, add, remove, denied).value)
  {
    hide Inv, AddRemoveNonVoting, R.Counted;
    AddRemoveResult(s, now, add, remove, denied);
    AddRemoveSame(s, add, remove, denied);
    AddRemoveKeeps(s, now, add, remove, denied);
    InvCounted(AddRemoveNonVoting(s, add, remove, denied).value, now);
    forall a | a in add ensures a !in denied {
      assert a in Names(add);
    }
  }

  lemma AddRemoveUnique(s: State, add: seq<Addr>, remove: seq<Addr>, denied: set<Addr>, one: State, other: State)
    requires R.AddedAndRemoved(s, add, remove, denied, one) && R.AddedAndRemoved(s, add, remove, denied, other)
    ensures one == other
  {
    assert forall a :: a in one.escrows <==> a in other.escrows;
    SameEscrows(one.escrows, other.escrows);
    CountedUnique(one, other);
  }

  lemma AddRemoveConforms(s: State, now: nat, add: seq<Addr>, remove: seq<Addr>, denied: set<Addr>, next: State)
    requires Inv(s, now)
    ensures AddRemoveNonVoting(s, add, remove, denied) == Ok(next) <==> R.AddedAndRemoved(s, add, remove, denied, next)
  {
    hide Inv, AddRemoveNonVoting, R.Counted;
    AddRemoveResult(s, now, add, remove, denied);
    var r := AddRemoveNonVoting(s, add, remove, denied);
    if r.Ok? {
      AddRemoveDoes(s, now, add, remove, denied);
      if R.AddedAndRemoved(s, add, remove, denied, next) {
        AddRemoveUnique(s, add, remove, denied, next, r.value);
      }
    }
  }

  lemma VotersAddedDoes(s: State, block: Block, id: nat, voters: seq<Addr>, denied: set<Addr>)
    requires Inv(s, block.Seconds()) && Fresh(s, id) && AddVoting(s, block, id, voters, denied).Ok?
    ensures R.VotersAdded(s, block, id, voters, denied, AddVoting(s, block, id, voters, denied).value)
  {
    hide Inv, AddVoting, R.Counted;
    AddVotingKeeps(s, block, id, voters, denied);
    var next := AddVoting(s, block, id, voters, denied).value;
    InvCounted(next, block.Seconds());
    AddVotingWrites(s, block, id, voters, denied);
    if voters != [] {
      AddVotingResult(s, block, id, voters, denied);
      forall a | a in voters ensures a !in denied {
        assert a in Names(voters);
      }
    }
  }

  lemma AddVotingWrites(s: State, block: Block, id: nat, voters: seq<Addr>, denied: set<Addr>)
    requires AddVoting(s, block, id, voters, denied).Ok?
    ensures
      var next := AddVoting(s, block, id, voters, denied).value;
      next == s.(escrows := next.escrows, members := next.members, batches := next.batches)
    ensures voters == [] ==> AddVoting(s, block, id, voters, denied).value == s
  {
    hide AddPending, AnyIn;
    var batched := CreateBatch(s, block, id, s.circle.rules.PeriodSeconds(), voters).value;
    AddPendingFrame(batched, id, voters);
    if voters == [] {
      assert AddPending(s, id, []) == s by {
        NothingPending(s, id);
      }
    }
  }

  lemma NothingPending(s: State, id: nat)
    ensures AddPending(s, id, []) == s
  {
  }

  lemma VotersAddedUnique(s: State, block: Block, id: nat, voters: seq<Addr>, denied: set<Addr>, one: State,
                          other: State)
    requires R.VotersAdded(s, block, id, voters, denied, one) && R.VotersAdded(s, block, id, voters, denied, other)
    ensures one == other
  {
    assert forall a :: a in one.escrows <==> a in other.escrows;
    SameEscrows(one.escrows, other.escrows);
    CountedUnique(one, other);
  }

  lemma AddVotingConforms(s: State, block: Block, id: nat, voters: seq<Addr>, denied: set<Addr>, next: State)
    requires Inv(s, block.Seconds()) && Fresh(s, id)
    ensures AddVoting(s, block, id, voters, denied) == Ok(next) <==> R.VotersAdded(s, block, id, voters, denied, next)
  {
    hide Inv, Fresh, AddVoting, R.Counted;
    AddVotingKeeps(s, block, id, voters, denied);
    var r := AddVoting(s, block, id, voters, denied);
    if R.VotersAdded(s, block, id, voters, denied, next) {
      assert forall i :: 0 <= i < |voters| ==> voters[i] in voters;
    }
    if r.Ok? {
      VotersAddedDoes(s, block, id, voters, denied);
      if R.VotersAdded(s, block, id, voters, denied, next) {
        VotersAddedUnique(s, block, id, voters, denied, next, r.value);
      }
    }
  }

  // ---------------------------------------------------------------- edits

  lemma EditConforms(s: State, block: Block, id: nat, adj: Adjustments, next: State)
    ensures
      var r := s.circle.ApplyAdjustments(block, id, adj);
      !s.circle.editDisabled && r.Ok? && next == s.(circle := r.value) <==> R.Edited(s, block, id, adj, next)
  {
  }

  // ---------------------------------------------------------------- punishments

  lemma {:induction false} PayEachIs(payments: seq<Payment>, recipients: seq<Addr>, each: nat)
    ensures
      var all := payments + PayEach(recipients, each);
      && |all| == |payments| + |recipients| && all[..|payments|] == payments
      && forall i :: 0 <= i < |recipients| ==> all[|payments| + i] == Payment(recipients[i], each)
  {
  }

  lemma SlashCharges(s: State, paid: nat, p: Punishment)
    requires PunishmentChecked(p)
    ensures SlashOf(paid, p).Ok? && SlashOf(paid, p).value.remaining <= paid
    ensures
      var slash := SlashOf(paid, p).value;
      R.Charges(s, paid * p.slashing / ONE, p, paid - slash.remaining, Charged(s.ledger, slash))
  {
    var slashed := paid * p.slashing / ONE;
    SlashSplits(paid, p);
    if p.DistributeEscrow? {
      var n := |p.recipients|;
      PayEachIs(s.ledger.payments, p.recipients, slashed / n);
      assert slashed == slashed / n * n + slashed % n;
      assert s.ledger.payments + [] == s.ledger.payments;
    } else {
      assert s.ledger.payments + [] == s.ledger.payments;
    }
  }

  lemma ChargesUnique(s: State, slashed: nat, p: Punishment, one: nat, other: nat, ledger: Ledger, last: Ledger)
    requires R.Charges(s, slashed, p, one, ledger) && R.Charges(s, slashed, p, other, last)
    ensures one == other && ledger == last
  {
    if p.DistributeEscrow? {
      var n, each := |s.ledger.payments|, slashed / |p.recipients|;
      forall i | 0 <= i < |ledger.payments| ensures ledger.payments[i] == last.payments[i] {
        if i < n {
          assert ledger.payments[..n][i] == last.payments[..n][i];
        } else {
          var k := i - n;
          assert ledger.payments[n + k] == Payment(p.recipients[k], each) == last.payments[n + k];
        }
      }
    }
  }

  lemma PunishDoes(s: State, block: Block, id: nat, named: set<Addr>, p: Punishment)
    requires Loose(s, block.Seconds(), 0, Some(id), named) && Conserved(s) && PunishmentChecked(p)
    requires s.circle.Validate().Ok? && Indexed(s) && Punish(s, block, id, p).Ok?
    ensures R.PunishedBy(s, block, id, p, Punish(s, block, id, p).value.1, Punish(s, block, id, p).value.0)
  {
    hide Loose, Conserved, Indexed, SlashOf, Charged, TriggerLongLeave, TrustedCircle.Validate, TrustedCircle.GetEscrow,
        R.Counted, R.PointsTaken, R.Charges, R.Meets, Put;
    PunishKeeps(s, block, id, named, p);
    PunishedCounted(s, block, id, named, p);
    var paid := s.escrows[p.member].paid;
    SlashCharges(s, paid, p);
    var slash := SlashOf(paid, p).value;
    MeetsIff(s.circle, slash.remaining);
    if p.kickOut {
      var charged := s.(ledger := Charged(s.ledger, slash));
      LedgerKeeps(s, charged.ledger, block.Seconds(), Some(id), named);
      ChargedIndexed(s, charged);
      LongLeaveConforms(charged, block, Some(id), named, p.member, s.escrows[p.member].(paid := slash.remaining));
      ChargedPoints(s, charged, block, p.member, Punish(s, block, id, p).value.0.proposals);
    }
  }

  lemma PunishedCounted(s: State, block: Block, id: nat, named: set<Addr>, p: Punishment)
    requires PunishedSoundly(s, block, id, named, p) && Punish(s, block, id, p).Ok?
    ensures R.Counted(Punish(s, block, id, p).value.0)
  {
    hide Punish, Stakes, BatchBounds, Punished;
    CountedIffAgreement(Punish(s, block, id, p).value.0);
  }

  lemma ChargedIndexed(s: State, charged: State)
    requires charged == s.(ledger := charged.ledger)
    ensures Indexed(s) ==> Indexed(charged)
  {
  }

  lemma ChargedPoints(s: State, charged: State, block: Block, leaver: Addr, proposals: map<nat, Proposal>)
    requires charged == s.(ledger := charged.ledger)
    ensures R.PointsTaken(charged, block, leaver, proposals) <==> R.PointsTaken(s, block, leaver, proposals)
    ensures PointsThere(charged, block, leaver) <==> PointsThere(s, block, leaver)
  {
    forall id | id in s.proposals
      ensures R.TakesPoint(charged, block, leaver, id) <==> R.TakesPoint(s, block, leaver, id)
    {
    }
  }

  /** A punishment fails only where the reference has none. */
  lemma PunishSucceeds(s: State, block: Block, id: nat, named: set<Addr>, p: Punishment, demoted: bool, next: State)
    requires Loose(s, block.Seconds(), 0, Some(id), named) && Conserved(s) && PunishmentChecked(p)
    requires s.circle.Validate().Ok? && Indexed(s) && R.PunishedBy(s, block, id, p, demoted, next)
    ensures Punish(s, block, id, p).Ok?
  {
    hide Loose, Conserved, Indexed, SlashOf, Charged, TriggerLongLeave, TrustedCircle.Validate, TrustedCircle.GetEscrow,
        R.Counted, R.PointsTaken, R.Charges, R.Meets, PointsThere, TakeVote;
    var paid := s.escrows[p.member].paid;
    SlashCharges(s, paid, p);
    var slash := SlashOf(paid, p).value;
    if p.kickOut {
      var charged := s.(ledger := Charged(s.ledger, slash));
      LedgerKeeps(s, charged.ledger, block.Seconds(), Some(id), named);
      ChargedIndexed(s, charged);
      LongLeaveConforms(charged, block, Some(id), named, p.member, s.escrows[p.member].(paid := slash.remaining));
      ChargedPoints(s, charged, block, p.member, next.proposals);
      if s.escrows[p.member].status == Voting {
        PointsTakenThere(s, block, p.member, next.proposals);
      }
    } else if s.escrows[p.member].status == Voting {
      VoteTaken(s, block, id, named, p.member);
    }
  }

  lemma VoteTaken(s: State, block: Block, id: nat, named: set<Addr>, a: Addr)
    requires Loose(s, block.Seconds(), 0, Some(id), named) && a in s.escrows && s.escrows[a].status == Voting
    ensures forall ledger :: TakeVote(s.(ledger := ledger), a).Ok?
  {
    VoterCounted(s, a);
  }

  lemma PunishedUnique(s: State, block: Block, id: nat, p: Punishment, one: bool, other: bool, next: State, last: State)
    requires R.PunishedBy(s, block, id, p, one, next) && R.PunishedBy(s, block, id, p, other, last)
    ensures one == other && next == last
  {
    hide R.Counted, R.PointsTaken, R.Charges, R.Meets;
    ChargesUnique(s, s.escrows[p.member].paid * p.slashing / ONE, p,
                  s.escrows[p.member].paid - next.escrows[p.member].paid,
                  s.escrows[p.member].paid - last.escrows[p.member].paid, next.ledger, last.ledger);
    assert next.escrows == last.escrows;
    CountedUnique(next, last);
    if p.kickOut && s.escrows[p.member].status == Voting {
      PointsTakenUnique(s, block, p.member, next.proposals, last.proposals);
    }
  }

  lemma PunishConforms(s: State, block: Block, id: nat, named: set<Addr>, p: Punishment, demoted: bool, next: State)
    requires Loose(s, block.Seconds(), 0, Some(id), named) && Conserved(s) && PunishmentChecked(p)
    requires s.circle.Validate().Ok? && Indexed(s)
    ensures Punish(s, block, id, p) == Ok((next, demoted)) <==> R.PunishedBy(s, block, id, p, demoted, next)
  {
    hide Loose, Conserved, Indexed, Punish, R.PunishedBy, TrustedCircle.Validate, PunishmentChecked;
    if R.PunishedBy(s, block, id, p, demoted, next) {
      PunishSucceeds(s, block, id, named, p, demoted, next);
    }
    if Punish(s, block, id, p).Ok? {
      PunishDoes(s, block, id, named, p);
      if R.PunishedBy(s, block, id, p, demoted, next) {
        var (last, again) := Punish(s, block, id, p).value;
        PunishedUnique(s, block, id, p, demoted, again, next, last);
      }
    }
  }

  /** What a punishment that goes through leaves to the next one. */
  lemma PunishedOn(s: State, block: Block, id: nat, named: set<Addr>, p: Punishment)
    requires Loose(s, block.Seconds(), 0, Some(id), named) && Conserved(s) && PunishmentChecked(p)
    requires s.circle.Validate().Ok? && Indexed(s) && Punish(s, block, id, p).Ok?
    ensures
      var (next, demoted) := Punish(s, block, id, p).value;
      && Loose(next, block.Seconds(), 0, Some(id), if demoted then named + {p.member} else named) && Conserved(next)
      && next.circle == s.circle && next.batches == s.batches && Indexed(next)
  {
    hide Loose, Conserved, Indexed, Punish, TrustedCircle.Validate, PunishmentChecked, Framed;
    PunishKeeps(s, block, id, named, p);
    PunishFramed(s, block, id, p);
    FramedKeepsIndex(s, Punish(s, block, id, p).value.0, block);
  }

  lemma {:induction false} PunishEachConforms(s: State, block: Block, id: nat, named: set<Addr>, ps: seq<Punishment>,
                                              demoted: seq<Addr>, next: State)
    requires Loose(s, block.Seconds(), 0, Some(id), named) && Conserved(s) && s.circle.Validate().Ok? && Indexed(s)
    requires forall i :: 0 <= i < |ps| ==> PunishmentChecked(ps[i])
    ensures PunishEach(s, block, id, ps) == Ok((next, demoted)) <==> R.PunishedInTurn(s, block, id, ps, demoted, next)
    decreases |ps|
  {
    hide Loose, Conserved, Indexed, Punish, R.PunishedBy, TrustedCircle.Validate, PunishmentChecked;
    if ps == [] {
    } else {
      var r := Punish(s, block, id, ps[0]);
      forall middle, again
        ensures r == Ok((middle, again)) <==> R.PunishedBy(s, block, id, ps[0], again, middle)
      {
        PunishConforms(s, block, id, named, ps[0], again, middle);
      }
      if r.Ok? {
        var (middle, again) := r.value;
        PunishedOn(s, block, id, named, ps[0]);
        var rest := if again && demoted != [] then demoted[1..] else demoted;
        PunishEachConforms(middle, block, id, if again then named + {ps[0].member} else named, ps[1..], rest, next);
        var others := PunishEach(middle, block, id, ps[1..]);
        if others.Ok? {
          AfterFirst(again, ps[0].member, others.value.1, demoted);
        }
        FirstPunished(s, block, id, ps, demoted, next, middle, again);
      }
    }
  }

  lemma AfterFirst(again: bool, first: Addr, others: seq<Addr>, demoted: seq<Addr>)
    ensures (if again then [first] else []) + others == demoted <==>
      && (again ==> demoted != [] && demoted[0] == first)
      && others == if again && demoted != [] then demoted[1..] else demoted
  {
    if again && demoted != [] {
      assert demoted == [demoted[0]] + demoted[1..];
    }
  }

  /** The relation is fixed by the first punishment, of which there is only one outcome. */
  lemma FirstPunished(s: State, block: Block, id: nat, ps: seq<Punishment>, demoted: seq<Addr>, next: State,
                      middle: State, again: bool)
    requires ps != [] && R.PunishedBy(s, block, id, ps[0], again, middle)
    requires forall t, b :: R.PunishedBy(s, block, id, ps[0], b, t) ==> t == middle && b == again
    ensures R.PunishedInTurn(s, block, id, ps, demoted, next) <==>
      && (again ==> demoted != [] && demoted[0] == ps[0].member)
      && R.PunishedInTurn(middle, block, id, ps[1..], if again then demoted[1..] else demoted, next)
  {
    hide R.PunishedBy;
  }

  lemma {:induction false} PunishEachBatches(s: State, block: Block, id: nat, named: set<Addr>, ps: seq<Punishment>)
    requires Loose(s, block.Seconds(), 0, Some(id), named) && Conserved(s) && s.circle.Validate().Ok? && Indexed(s)
    requires forall i :: 0 <= i < |ps| ==> PunishmentChecked(ps[i])
    ensures PunishEach(s, block, id, ps).Ok? ==> PunishEach(s, block, id, ps).value.0.batches == s.batches
    decreases |ps|
  {
    hide Loose, Conserved, Indexed, Punish, TrustedCircle.Validate, PunishmentChecked;
    if ps == [] {
    } else if Punish(s, block, id, ps[0]).Ok? {
      var (middle, again) := Punish(s, block, id, ps[0]).value;
      PunishedOn(s, block, id, named, ps[0]);
      PunishEachBatches(middle, block, id, if again then named + {ps[0].member} else named, ps[1..]);
    }
  }

  lemma PunishAllConforms(s: State, block: Block, id: nat, ps: seq<Punishment>, next: State)
    requires Inv(s, block.Seconds()) && Fresh(s, id) && Indexed(s)
    requires forall i :: 0 <= i < |ps| ==> PunishmentChecked(ps[i])
    ensures PunishAll(s, block, id, ps) == Ok(next) <==> R.AllPunished(s, block, id, ps, next)
  {
    hide Agreement, Stakes, BatchBounds, Ids, PendingFresh, Conserved, PunishEach, Indexed, R.PunishedInTurn,
        TrustedCircle.Validate, PunishmentChecked;
    OpenBatch(s, block.Seconds(), id);
    PunishEachBatches(s, block, id, {}, ps);
    forall middle, demoted
      ensures PunishEach(s, block, id, ps) == Ok((middle, demoted))
          <==> R.PunishedInTurn(s, block, id, ps, demoted, middle)
    {
      PunishEachConforms(s, block, id, {}, ps, demoted, middle);
    }
    if PunishAll(s, block, id, ps).Ok? {
      var (middle, demoted) := PunishEach(s, block, id, ps).value;
      assert R.PunishedInTurn(s, block, id, ps, demoted, middle);
    }
  }

  // ---------------------------------------------------------------- every message

  lemma ExecuteConforms(s: State, block: Block, id: nat, denied: set<Addr>, next: State)
    requires Inv(s, block.Seconds()) && Indexed(s)
    ensures ExecuteProposal(s, block, id, denied) == Ok(next) <==> R.ProposalExecuted(s, block, id, denied, next)
  {
    hide Inv, Indexed, Fresh, ContentChecked, AddRemoveNonVoting, AddVoting, PunishAll, R.AddedAndRemoved,
        R.VotersAdded, R.Edited, R.AllPunished, TrustedCircle.ApplyAdjustments;
    if id in s.proposals && s.proposals[id].status == Passed {
      var marked := Marked(s, id);
      var content := s.proposals[id].content;
      MarkExecuted(s, block.Seconds(), id);
      MarkedKeepsIndex(s, id);
      StoredContent(s, block.Seconds(), id);
      match content
      case AddRemoveNonVotingMembers(remove, add) =>
        AddRemoveConforms(marked, block.Seconds(), add, remove, denied, next);
      case EditTrustedCircle(adj) => EditConforms(marked, block, id, adj, next);
      case AddVotingMembers(voters) => AddVotingConforms(marked, block, id, voters, denied, next);
      case PunishMembers(ps) =>
        CheckedPunishments(ps);
        PunishAllConforms(marked, block, id, ps, next);
      case WhitelistContract(a) => AddRemoveConforms(marked, block.Seconds(), [a], [], denied, next);
      case RemoveContract(a) => AddRemoveConforms(marked, block.Seconds(), [], [a], denied, next);
    }
  }

  lemma CheckedPunishments(ps: seq<Punishment>)
    requires ContentChecked(PunishMembers(ps))
    ensures forall i :: 0 <= i < |ps| ==> PunishmentChecked(ps[i])
  {
  }

  /** In every state of the invariant, a message is accepted and leaves `next` if and only if the reference
      has it so. */
  lemma HandleConforms(s: State, call: Call, next: State)
    requires Inv(s, call.block.Seconds()) && Indexed(s)
    ensures Handle(s, call) == Ok(next) <==> R.Transition(s, call, next)
  {
    hide Inv, Indexed, Deposit, Return, ProposeContent, VoteOn, ExecuteProposal, CloseProposal, Leave, CheckAllPending,
        R.DepositAccepted, R.DepositEffect, R.ReturnAccepted, R.ReturnEffect, R.ProposalMade, R.VoteAccepted,
        R.VoteEffect, R.ProposalExecuted, R.HasLeft, R.CheckAccepted, R.CheckEffect, R.TallyTraps, R.WithVote;
    var block, sender := call.block, call.sender;
    match call.message
    case DepositEscrow(amount) => DepositIff(s, block, sender, amount, next);
    case ReturnEscrow => ReturnIff(s, block, sender, next);
    case Propose(content, others) => ProposeConforms(s, block, sender, content, others, next);
    case CastVote(id, vote, power) => VoteConforms(s, block, sender, id, vote, power, next);
    case Execute(id, others) => ExecuteConforms(s, block, id, others.denied, next);
    case Close(id) => CloseConforms(s, block, id, next);
    case LeaveTrustedCircle => LeaveConforms(s, block, sender, next);
    case CheckPending => CheckIff(s, block, next);
  }

  lemma DepositIff(s: State, block: Block, sender: Addr, amount: nat, next: State)
    requires Inv(s, block.Seconds())
    ensures Deposit(s, block, sender, amount) == Ok(next) <==>
      R.DepositAccepted(s, block, sender, amount) && R.DepositEffect(s, block, sender, amount, next)
  {
    hide Inv, Deposit, R.DepositAccepted, R.DepositEffect;
    DepositSucceedsIff(s, block, sender, amount);
    if Deposit(s, block, sender, amount).Ok? {
      DepositConforms(s, block, sender, amount);
      if R.DepositEffect(s, block, sender, amount, next) {
        DepositUnique(s, block, sender, amount, next, Deposit(s, block, sender, amount).value);
      }
    }
  }

  lemma ReturnIff(s: State, block: Block, sender: Addr, next: State)
    requires Inv(s, block.Seconds())
    ensures Return(s, block, sender) == Ok(next) <==>
      R.ReturnAccepted(s, block, sender) && R.ReturnEffect(s, block, sender, next)
  {
    hide Inv, Return, R.ReturnAccepted, R.ReturnEffect;
    ReturnConforms(s, block, sender);
    if Return(s, block, sender).Ok? && R.ReturnEffect(s, block, sender, next) {
      ReturnUnique(s, block, sender, next, Return(s, block, sender).value);
    }
  }

  lemma CheckIff(s: State, block: Block, next: State)
    requires Inv(s, block.Seconds())
    ensures CheckAllPending(s, block) == Ok(next) <==> R.CheckAccepted(s, block) && R.CheckEffect(s, block, next)
  {
    hide Inv, CheckAllPending, R.CheckAccepted, R.CheckEffect;
    CheckSucceedsIff(s, block);
    if CheckAllPending(s, block).Ok? {
      CheckConforms(s, block);
      if R.CheckEffect(s, block, next) {
        CheckUnique(s, block, next, CheckAllPending(s, block).value);
      }
    }
  }

  // ---------------------------------------------------------------- whole runs

  lemma InstantiateConforms(sender: Addr, amount: nat, msg: InstantiateMsg, denied: set<Addr>, s: State)
    ensures Instantiate(sender, amount, msg, denied) == Ok(s) <==> R.FoundedBy(sender, amount, msg, denied, s)
  {
    hide AddRemoveNonVoting, IsBlank, Utf8Length, Inv, R.Counted;
    if msg.Circle().Validate().Ok? && amount >= msg.escrowAmount {
      var first := FirstState(sender, amount, msg.Circle());
      FirstCounted(sender, amount, msg);
      AddRemoveConforms(first, 0, msg.initialMembers, [], denied, s);
      if R.FoundedBy(sender, amount, msg, denied, s) {
        assert s == first.(escrows := s.escrows, members := s.members);
      }
    }
  }

  lemma FirstCounted(sender: Addr, amount: nat, msg: InstantiateMsg)
    requires msg.Circle().Validate().Ok? && amount >= msg.escrowAmount
    ensures Inv(FirstState(sender, amount, msg.Circle()), 0)
  {
    FirstMember(sender, amount);
  }

  /** After every run, the next message does what the reference says, and no other. */
  lemma ReachableConforms(block: Block, sender: Addr, amount: nat, msg: InstantiateMsg, denied: set<Addr>,
                          calls: seq<Call>, call: Call, next: State)
    requires Instantiate(sender, amount, msg, denied).Ok?
    requires Ordered(block, calls) && LastBlock(block, calls).NotAfter(call.block)
    ensures
      var s := Run(Instantiate(sender, amount, msg, denied).value, calls);
      Handle(s, call) == Ok(next) <==> R.Transition(s, call, next)
  {
    hide Inv, Indexed, Handle, Run, Instantiate, Ordered, R.Transition;
    var s0 := Instantiate(sender, amount, msg, denied).value;
    InstantiateEstablishes(block, sender, amount, msg, denied);
    RunKeeps(s0, block, calls);
    ReachableIndexed(block, sender, amount, msg, denied, calls);
    SecondsMonotone(LastBlock(block, calls), call.block);
    InvLater(Run(s0, calls), LastBlock(block, calls).Seconds(), call.block.Seconds());
    HandleConforms(Run(s0, calls), call, next);
  }
}
