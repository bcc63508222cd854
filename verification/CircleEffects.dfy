/**
 What the circle's operations do to every member, said without their loops.
 */
module CircleEffects {
  import opened Base
  import opened Sums
  import opened Voting
  import opened Circle
  import opened CircleInvariant
  import opened CirclePromotion
  import R = CircleReference

  // ---------------------------------------------------------------- a change of escrow

  lemma {:induction false} DemoteEachResult(s: State, id: nat, addrs: seq<Addr>)
    requires StrictlyAscending(addrs) && DemoteEach(s, id, addrs).Ok?
    ensures
      var next := DemoteEach(s, id, addrs).value;
      && next.escrows.Keys == s.escrows.Keys && next.ledger == s.ledger
      && forall a :: a in s.escrows ==>
           next.escrows[a] == if a in addrs then s.escrows[a].(status := MemberStatus.Pending(id)) else s.escrows[a]
    decreases |addrs|
  {
    if addrs == [] {
    } else {
      var escrow := s.escrows[addrs[0]].(status := MemberStatus.Pending(id));
      var next := TakeVote(s.(escrows := s.escrows[addrs[0] := escrow]), addrs[0]).value;
      DemoteEachResult(next, id, addrs[1..]);
      assert forall a :: a in addrs <==> a == addrs[0] || a in addrs[1..];
      assert next.escrows == s.escrows[addrs[0] := escrow];
    }
  }

  lemma {:induction false} PromoteEachResult(s: State, addrs: seq<Addr>)
    requires StrictlyAscending(addrs)
    requires forall a :: a in addrs ==> a in s.escrows && s.escrows[a].status.Pending?
    ensures
      var next := PromoteEach(s, addrs);
      && next.escrows.Keys == s.escrows.Keys && next == s.(escrows := next.escrows)
      && forall a :: a in s.escrows ==>
           next.escrows[a] == if a in addrs then s.escrows[a].(status := PendingPaid(s.escrows[a].status.proposalId))
                              else s.escrows[a]
    decreases |addrs|
  {
    if addrs == [] {
    } else {
      assert forall a :: a in addrs <==> a == addrs[0] || a in addrs[1..];
      var e := s.escrows[addrs[0]].(status := PendingPaid(s.escrows[addrs[0]].status.proposalId));
      forall a | a in addrs[1..] ensures a != addrs[0] {
        TailElement(addrs, a);
      }
      PromoteEachResult(s.(escrows := s.escrows[addrs[0] := e]), addrs[1..]);
    }
  }

  /** What becomes of a member when the escrow changes from `amount` to `newAmount`. */
  function AfterEscrowChange(e: EscrowStatus, id: nat, amount: nat, newAmount: nat): EscrowStatus {
    if newAmount > amount && e.status == Voting && e.paid < newAmount then e.(status := MemberStatus.Pending(id))
    else if newAmount < amount && e.status.Pending? && e.paid >= newAmount then
      e.(status := PendingPaid(e.status.proposalId))
    else e
  }

  /** A raised escrow demotes exactly the voters below it; a lowered one lets exactly the pending
      members who reach it count as paid, each in the batch they came from. */
  lemma EscrowChangeResult(s: State, block: Block, id: nat, amount: nat, newAmount: nat)
    requires DemotePromote(s, block, id, amount, newAmount).Ok?
    ensures
      var next := DemotePromote(s, block, id, amount, newAmount).value;
      && next.escrows.Keys == s.escrows.Keys && next.ledger == s.ledger
      && forall a :: a in s.escrows ==> next.escrows[a] == AfterEscrowChange(s.escrows[a], id, amount, newAmount)
  {
    hide Ascending, DemoteEach, PromoteEach;
    if newAmount > amount {
      DemoteEachResult(s, id, BelowEscrowVoters(s.escrows, newAmount));
    } else if newAmount < amount {
      PromoteEachResult(s, PaidPending(s.escrows, newAmount));
    }
  }

  // ---------------------------------------------------------------- members added and removed

  lemma NoNames()
    ensures Names([]) == {}
  {
    var none: seq<Addr> := [];
    assert Names(none) == {};
  }

  lemma NamesSplit(addrs: seq<Addr>)
    requires addrs != []
    ensures Names(addrs) == {addrs[0]} + Names(addrs[1..])
    ensures forall a :: a in addrs <==> a == addrs[0] || a in addrs[1..]
  {
  }

  lemma {:induction false} AddNonVotingResult(s: State, add: seq<Addr>)
    requires s.members.Keys == s.escrows.Keys
    ensures
      var next := AddNonVoting(s, add);
      && next.members.Keys == next.escrows.Keys == s.escrows.Keys + Names(add)
      && next == s.(members := next.members, escrows := next.escrows)
      && forall a :: a in next.escrows ==>
           next.escrows[a] == if a in s.escrows then s.escrows[a] else EscrowStatus(0, NonVoting)
    decreases |add|
  {
    hide Names;
    if add == [] {
      NoNames();
    } else {
      NamesSplit(add);
      if add[0] in s.members {
        AddNonVotingResult(s, add[1..]);
      } else {
        AddNonVotingResult(Put(s, add[0], EscrowStatus(0, NonVoting)), add[1..]);
      }
    }
  }

  lemma {:induction false} RemoveNonVotingResult(s: State, remove: seq<Addr>)
    requires s.members.Keys == s.escrows.Keys
    ensures RemoveNonVoting(s, remove).Ok? <==>
      forall a :: a in remove && a in s.escrows ==> s.escrows[a].status == NonVoting
    ensures RemoveNonVoting(s, remove).Ok? ==>
      RemoveNonVoting(s, remove).value.escrows == s.escrows - Names(remove)
    decreases |remove|
  {
    hide Names;
    if remove == [] {
      NoNames();
    } else {
      NamesSplit(remove);
      if remove[0] !in s.escrows {
        RemoveNonVotingResult(s, remove[1..]);
        assert s.escrows - Names(remove) == s.escrows - Names(remove[1..]);
      } else if s.escrows[remove[0]].status == NonVoting {
        var next := s.(members := s.members - {remove[0]}, escrows := s.escrows - {remove[0]});
        assert next.members.Keys == next.escrows.Keys;
        RemoveNonVotingResult(next, remove[1..]);
        assert s.escrows - Names(remove) == next.escrows - Names(remove[1..]);
      }
    }
  }

  /** The addresses in both lists are removed, those already members are not touched by adding, and
      it fails exactly if somebody to be removed is more than a non-voting member. */
  lemma AddRemoveResult(s: State, now: nat, add: seq<Addr>, remove: seq<Addr>, denied: set<Addr>)
    requires Inv(s, now)
    ensures AddRemoveNonVoting(s, add, remove, denied).Ok? <==>
      && Names(add) !! denied
      && forall a :: a in remove && a in s.escrows ==> s.escrows[a].status == NonVoting
    ensures AddRemoveNonVoting(s, add, remove, denied).Ok? ==>
      var escrows := AddRemoveNonVoting(s, add, remove, denied).value.escrows;
      && escrows.Keys == s.escrows.Keys + Names(add) - Names(remove)
      && forall a :: a in escrows ==> escrows[a] == if a in s.escrows then s.escrows[a] else EscrowStatus(0, NonVoting)
  {
    hide AddNonVoting, RemoveNonVoting, Stakes, BatchBounds, Ids, PendingFresh, Checked, Conserved;
    AddNonVotingResult(s, add);
    RemoveNonVotingResult(AddNonVoting(s, add), remove);
    NamesIn(add, denied);
  }

  lemma NamesIn(addrs: seq<Addr>, s: set<Addr>)
    ensures AnyIn(addrs, s) <==> !(Names(addrs) !! s)
  {
    if AnyIn(addrs, s) {
      var i :| 0 <= i < |addrs| && addrs[i] in s;
      assert addrs[i] in Names(addrs) * s;
    }
    if !(Names(addrs) !! s) {
      var a :| a in Names(addrs) * s;
      var i :| 0 <= i < |addrs| && addrs[i] == a;
    }
  }

  lemma {:induction false} AddPendingFrame(s: State, id: nat, addrs: seq<Addr>)
    ensures
      var next := AddPending(s, id, addrs);
      && next == s.(members := next.members, escrows := next.escrows)
      && next.escrows.Keys == s.escrows.Keys + Names(addrs)
    decreases |addrs|
  {
    hide Names;
    if addrs == [] {
      NoNames();
    } else {
      NamesSplit(addrs);
      if addrs[0] in s.escrows && s.escrows[addrs[0]].status != NonVoting {
        AddPendingFrame(s, id, addrs[1..]);
      } else {
        AddPendingFrame(Put(s, addrs[0], EscrowStatus(0, MemberStatus.Pending(id))), id, addrs[1..]);
      }
    }
  }

  lemma {:induction false} AddPendingResult(s: State, id: nat, addrs: seq<Addr>, a: Addr)
    requires a in AddPending(s, id, addrs).escrows
    ensures a in addrs || a in s.escrows
    ensures AddPending(s, id, addrs).escrows[a] ==
      if a in addrs && (a in s.escrows ==> s.escrows[a].status == NonVoting)
      then EscrowStatus(0, MemberStatus.Pending(id)) else s.escrows[a]
    decreases |addrs|
  {
    if addrs == [] {
    } else {
      assert a in addrs <==> a == addrs[0] || a in addrs[1..];
      if addrs[0] in s.escrows && s.escrows[addrs[0]].status != NonVoting {
        AddPendingResult(s, id, addrs[1..], a);
      } else {
        AddPendingResult(Put(s, addrs[0], EscrowStatus(0, MemberStatus.Pending(id))), id, addrs[1..], a);
      }
    }
  }

  /** Exactly the named addresses that are not more than non-voting members become pending, and the
      stored batch names the whole list, to be promoted by the end of the voting period. */
  lemma AddVotingResult(s: State, block: Block, id: nat, voters: seq<Addr>, denied: set<Addr>)
    requires id !in s.batches && voters != []
    ensures AddVoting(s, block, id, voters, denied).Ok? <==> Names(voters) !! denied
    ensures AddVoting(s, block, id, voters, denied).Ok? ==>
      var next := AddVoting(s, block, id, voters, denied).value;
      && next.escrows.Keys == s.escrows.Keys + Names(voters)
      && (forall a :: a in next.escrows ==>
            next.escrows[a] == if a in voters && (a in s.escrows ==> s.escrows[a].status == NonVoting)
                               then EscrowStatus(0, MemberStatus.Pending(id)) else s.escrows[a])
      && next.batches == s.batches[id :=
           Batch(block.Seconds() + s.circle.rules.votingPeriod * 86_400, |voters|, false, voters)]
  {
    hide AddPending;
    NamesIn(voters, denied);
    var batched := CreateBatch(s, block, id, s.circle.rules.PeriodSeconds(), voters).value;
    AddPendingFrame(batched, id, voters);
    forall a | a in AddPending(batched, id, voters).escrows
      ensures AddPending(batched, id, voters).escrows[a] ==
        if a in voters && (a in s.escrows ==> s.escrows[a].status == NonVoting)
        then EscrowStatus(0, MemberStatus.Pending(id)) else s.escrows[a]
    {
      AddPendingResult(batched, id, voters, a);
    }
  }

  // ---------------------------------------------------------------- deposits

  /** What a deposit writes before it looks at the batch. */
  function Deposited(s: State, sender: Addr, amount: nat): map<Addr, EscrowStatus>
    requires sender in s.escrows
  {
    var e := s.escrows[sender].(paid := s.escrows[sender].paid + amount);
    s.escrows[sender := if e.status.Pending? && R.Meets(s.circle, e.paid)
                        then e.(status := PendingPaid(e.status.proposalId)) else e]
  }

  /** Whether the deposit completes the sender's escrow when his batch is promoted, or is now. */
  predicate Promotes(s: State, block: Block, sender: Addr, amount: nat)
    requires sender in s.escrows
  {
    var e := s.escrows[sender];
    && e.status.Pending? && R.Meets(s.circle, e.paid + amount) && e.status.proposalId in s.batches
    && var batch := s.batches[e.status.proposalId];
       batch.waitingEscrow == 1 || block.time >= batch.graceEndsAt * NANOS_PER_SECOND
  }

  /** What a paid escrow does to the members of its batch. */
  lemma UpdateBatchResult(s: State, block: Block, id: nat, sender: Addr)
    requires UpdateBatchAfterEscrowPaid(s, block, id, sender).Ok?
    ensures id in s.batches && s.batches[id].waitingEscrow > 0
    ensures
      var next, batch := UpdateBatchAfterEscrowPaid(s, block, id, sender).value, s.batches[id];
      && next.escrows.Keys == s.escrows.Keys
      && forall a :: a in s.escrows ==>
           var turn := batch.waitingEscrow == 1 || block.time >= batch.graceEndsAt * NANOS_PER_SECOND;
           var named := if batch.batchPromoted then a == sender else a in batch.members;
           next.escrows[a] == if turn && named && s.escrows[a].status.PendingPaid?
                              then s.escrows[a].(status := Voting) else s.escrows[a]
  {
    hide ConvertEach;
    var batch := s.batches[id].(waitingEscrow := s.batches[id].waitingEscrow - 1);
    if batch.CanPromote(block) && !batch.batchPromoted {
      ConvertEachResult(s, batch.members);
    }
  }

  /** A deposit adds to the sender's escrow alone. It makes voters only if it completes his escrow
      while his batch can be promoted: then all paid members of the batch, or, if they already had
      their turn, the sender. */
  lemma DepositResult(s: State, block: Block, sender: Addr, amount: nat)
    requires Deposit(s, block, sender, amount).Ok?
    ensures
      var next := Deposit(s, block, sender, amount).value;
      && sender in s.escrows && !s.escrows[sender].status.NonVoting? && !s.escrows[sender].status.Leaving?
      && next.escrows.Keys == s.escrows.Keys
      && forall a :: a in s.escrows ==>
           var e := Deposited(s, sender, amount)[a];
           next.escrows[a] ==
             if Promotes(s, block, sender, amount) && e.status.PendingPaid?
                && var batch := s.batches[s.escrows[sender].status.proposalId];
                   (if batch.batchPromoted then a == sender else a in batch.members)
             then e.(status := Voting) else e
  {
    hide UpdateBatchAfterEscrowPaid, TrustedCircle.GetEscrow, R.Meets;
    var e := s.escrows[sender];
    MeetsIff(s.circle, e.paid + amount);
    if e.status.Pending? && R.Meets(s.circle, e.paid + amount) {
      var id := e.status.proposalId;
      var paid := s.(escrows := Deposited(s, sender, amount),
                     ledger := s.ledger.(deposited := s.ledger.deposited + amount));
      assert Deposit(s, block, sender, amount) == UpdateBatchAfterEscrowPaid(paid, block, id, sender);
      UpdateBatchResult(paid, block, id, sender);
    }
  }

  // ---------------------------------------------------------------- leaving

  /** A leaver's point is taken from exactly the open proposals listed that he has not voted on. */
  lemma {:induction false} AdjustForLeaverResult(proposals: map<nat, Proposal>, ballots: map<(nat, Addr), Ballot>,
                                                 leaver: Addr, ids: seq<nat>)
    requires AdjustForLeaver(proposals, ballots, leaver, ids).Ok?
    ensures
      var next := AdjustForLeaver(proposals, ballots, leaver, ids).value;
      && next.Keys == proposals.Keys
      && forall id :: id in proposals ==>
           var p := proposals[id];
           var entitled := p.status == Open && (id, leaver) !in ballots;
           next[id] == p.(totalPoints := next[id].totalPoints)
           && next[id].totalPoints + (if entitled then multiset(ids)[id] else 0) == p.totalPoints
    decreases |ids|
  {
    if ids == [] {
    } else {
      assert ids == [ids[0]] + ids[1..];
      if (ids[0], leaver) in ballots || proposals[ids[0]].status != Open {
        AdjustForLeaverResult(proposals, ballots, leaver, ids[1..]);
      } else {
        var adjusted := proposals[ids[0]].(totalPoints := proposals[ids[0]].totalPoints - VOTING_POINTS);
        AdjustForLeaverResult(proposals[ids[0] := adjusted], ballots, leaver, ids[1..]);
      }
    }
  }

  // ---------------------------------------------------------------- punishments

  lemma PayoutOf(paid: nat, p: Punishment)
    requires PunishmentChecked(p) && SlashOf(paid, p).Ok?
    ensures SlashOf(paid, p).value.payments == Payout(paid * p.slashing / ONE, p)
  {
  }

  /** Each recipient gets the same whole number of tokens, unless nothing was slashed. */
  function Payout(slashed: nat, p: Punishment): seq<Payment>
    requires PunishmentChecked(p)
  {
    if p.BurnEscrow? || slashed == 0 then [] else PayEach(p.recipients, slashed / |p.recipients|)
  }

  /** A punishment touches the escrow of its member alone: what left the contract is missing there,
      the slashed part is all burned or, up to less than one unit per recipient, all sent, and the
      member is leaving if kicked out, else pending if below either escrow amount, else as before. */
  lemma PunishResult(s: State, block: Block, id: nat, p: Punishment)
    requires PunishmentChecked(p) && Punish(s, block, id, p).Ok?
    ensures
      var (next, demoted) := Punish(s, block, id, p).value;
      && p.member in s.escrows && s.escrows[p.member].status != NonVoting && p.member in next.escrows
      && next.escrows == s.escrows[p.member := next.escrows[p.member]]
      && var before, after := s.escrows[p.member], next.escrows[p.member];
         var sent, burned := next.ledger.sent - s.ledger.sent, next.ledger.burned - s.ledger.burned;
         && 0 <= sent && 0 <= burned && after.paid + sent + burned == before.paid
         && (if p.BurnEscrow? then sent == 0 && burned == before.paid * p.slashing / ONE
             else burned == 0 && sent <= before.paid * p.slashing / ONE < sent + |p.recipients|)
         && next.ledger.payments == s.ledger.payments + Payout(before.paid * p.slashing / ONE, p)
         && demoted == (!p.kickOut && !R.Meets(s.circle, after.paid))
         && after.status == (if p.kickOut then Leaving(block.Seconds() + 2 * s.circle.rules.PeriodSeconds())
                             else if demoted then MemberStatus.Pending(id) else before.status)
  {
    hide SlashOf, AdjustForLeaver, OpenProposalIds, TrustedCircle.GetEscrow, R.Meets, Payout;
    if SlashOf(s.escrows[p.member].paid, p).Ok? {
      MeetsIff(s.circle, SlashOf(s.escrows[p.member].paid, p).value.remaining);
    }
    SlashSplits(s.escrows[p.member].paid, p);
    PayoutOf(s.escrows[p.member].paid, p);
  }
}
