/**
 The invariant of the trusted circle, and what single writes do to it.
 */
module CircleInvariant {
  import opened Base
  import opened Sums
  import opened Voting
  import opened Circle

  // ---------------------------------------------------------------- what is counted

  /** Only voting members have points. */
  function PointsOf(status: MemberStatus): nat {
    if status == Voting then VOTING_POINTS else 0
  }

  function Voters(escrows: map<Addr, EscrowStatus>): set<Addr> {
    set a | a in escrows && escrows[a].status == Voting
  }

  /** The members still to pay in a batch. */
  function Waiting(escrows: map<Addr, EscrowStatus>, id: nat): set<Addr> {
    set a | a in escrows && escrows[a].status == MemberStatus.Pending(id)
  }

  function Paid(escrows: map<Addr, EscrowStatus>): map<Addr, int> {
    map a | a in escrows :: escrows[a].paid
  }

  /** The addresses in a list. */
  function Names(addrs: seq<Addr>): set<Addr> {
    set a | a in addrs
  }

  // ---------------------------------------------------------------- the invariant

  /** Members and escrows have the same keys, points follow the status, and the total counts the
      voting members, except for `lag` of them that a running promotion has still to add. */
  ghost predicate Agreement(s: State, lag: int) {
    && s.members.Keys == s.escrows.Keys
    && (forall a :: a in s.escrows ==> s.members[a] == PointsOf(s.escrows[a].status))
    && s.total + lag == |Voters(s.escrows)|
  }

  /** Whoever votes, or paid to vote, has a whole token at stake; who never was to vote has none. */
  predicate StakeOk(e: EscrowStatus) {
    && (e.status == Voting || e.status.PendingPaid? ==> e.paid >= ONE_TGD)
    && (e.status == NonVoting ==> e.paid == 0)
  }

  ghost predicate Stakes(escrows: map<Addr, EscrowStatus>) {
    forall a :: a in escrows ==> StakeOk(escrows[a])
  }

  /** Every pending member is in a stored batch, and no batch has more of them than its counter
      says. While a proposal is executing, its batch `open` is not stored yet: only members in
      `named` wait for it. */
  ghost predicate BatchBounds(s: State, now: nat, open: Option<nat>, named: set<Addr>) {
    && (forall a :: a in s.escrows && s.escrows[a].status.Pending? ==>
          s.escrows[a].status.proposalId in s.batches || open == Some(s.escrows[a].status.proposalId))
    && (forall id :: id in s.batches ==> |Waiting(s.escrows, id)| <= s.batches[id].waitingEscrow)
    && (forall id :: id in s.batches && s.batches[id].batchPromoted ==>
          s.batches[id].waitingEscrow == 0 || s.batches[id].graceEndsAt <= now)
    && (open.Some? ==> open.value !in s.batches && Waiting(s.escrows, open.value) <= named)
  }

  ghost predicate Loose(s: State, now: nat, lag: int, open: Option<nat>, named: set<Addr>) {
    Agreement(s, lag) && Stakes(s.escrows) && BatchBounds(s, now, open, named)
  }

  /** Batches and the pending escrow come from executed proposals, each from its own. */
  ghost predicate Ids(s: State) {
    && (forall id :: id in s.batches ==> id in s.proposals && s.proposals[id].status == Executed)
    && (forall id :: id in s.proposals ==> 1 <= id <= s.proposalCount)
  }

  ghost predicate PendingFresh(s: State) {
    s.circle.escrowPending.Some? ==>
      var id := s.circle.escrowPending.value.proposalId;
      id in s.proposals && s.proposals[id].status == Executed && id !in s.batches
  }

  /** The settings an edit may install: each one valid by itself. */
  predicate AdjustmentsChecked(adj: Adjustments) {
    && (adj.name.Some? ==> !IsBlank(adj.name.value) && Utf8Length(adj.name.value) <= MAX_NAME_LENGTH)
    && (adj.escrowAmount.Some? ==> adj.escrowAmount.value >= ONE_TGD)
    && (adj.votingPeriod.Some? ==> 1 <= adj.votingPeriod.value <= 365)
    && (adj.quorum.Some? ==> 0 < adj.quorum.value <= ONE)
    && (adj.threshold.Some? ==> HALF <= adj.threshold.value <= ONE)
  }

  predicate PunishmentChecked(p: Punishment) {
    p.slashing <= ONE && (p.DistributeEscrow? ==> p.recipients != [])
  }

  predicate ContentChecked(content: Content) {
    match content
    case EditTrustedCircle(adj) => AdjustmentsChecked(adj)
    case PunishMembers(ps) => forall i :: 0 <= i < |ps| ==> PunishmentChecked(ps[i])
    case AddRemoveNonVotingMembers(_, _) => true
    case AddVotingMembers(_) => true
    case WhitelistContract(_) => true
    case RemoveContract(_) => true
  }

  ghost predicate Checked(s: State) {
    && s.circle.Validate().Ok?
    && forall id :: id in s.proposals ==> ContentChecked(s.proposals[id].content)
  }

  /** What the members' escrows hold is what came in less what went out. */
  ghost predicate Conserved(s: State) {
    Sum(Paid(s.escrows)) + s.ledger.refunded + s.ledger.sent + s.ledger.burned == s.ledger.deposited
  }

  ghost predicate Inv(s: State, now: nat) {
    Loose(s, now, 0, None, {}) && Ids(s) && PendingFresh(s) && Checked(s) && Conserved(s)
  }

  lemma InvLater(s: State, now: nat, later: nat)
    requires Inv(s, now) && now <= later
    ensures Inv(s, later)
  {
  }

  // ---------------------------------------------------------------- single writes

  lemma VotersPut(escrows: map<Addr, EscrowStatus>, a: Addr, e: EscrowStatus)
    ensures |Voters(escrows[a := e])| ==
      |Voters(escrows)| - (if a in escrows then PointsOf(escrows[a].status) else 0) + PointsOf(e.status)
  {
    var before, after := Voters(escrows), Voters(escrows[a := e]);
    if e.status == Voting {
      assert after == before + {a};
    } else {
      assert after == before - {a};
    }
  }

  lemma WaitingPut(escrows: map<Addr, EscrowStatus>, a: Addr, e: EscrowStatus, id: nat)
    ensures Waiting(escrows[a := e], id) ==
      if e.status == MemberStatus.Pending(id) then Waiting(escrows, id) + {a} else Waiting(escrows, id) - {a}
  {
  }

  lemma PaidPut(escrows: map<Addr, EscrowStatus>, a: Addr, e: EscrowStatus)
    ensures Sum(Paid(escrows[a := e])) ==
      Sum(Paid(escrows)) - (if a in escrows then escrows[a].paid else 0) + e.paid
  {
    assert Paid(escrows[a := e]) == Paid(escrows)[a := e.paid];
    SumUpdate(Paid(escrows), a, e.paid);
  }

  lemma PaidRemove(escrows: map<Addr, EscrowStatus>, a: Addr)
    requires a in escrows
    ensures Sum(Paid(escrows - {a})) == Sum(Paid(escrows)) - escrows[a].paid
  {
    assert Paid(escrows - {a}) == Paid(escrows) - {a};
    SumRemove(Paid(escrows), a);
  }

  /** The state with one member's entry and points written. */
  function Put(s: State, a: Addr, e: EscrowStatus): State {
    s.(escrows := s.escrows[a := e], members := s.members[a := PointsOf(e.status)])
  }

  /** Writing an entry keeps the counts, if a new pending status belongs to the open batch. */
  lemma PutKeeps(s: State, now: nat, lag: int, open: Option<nat>, named: set<Addr>, a: Addr, e: EscrowStatus)
    requires Loose(s, now, lag, open, named) && StakeOk(e)
    requires e.status.Pending? ==>
      (a in s.escrows && s.escrows[a].status == e.status) || open == Some(e.status.proposalId)
    ensures
      var before := if a in s.escrows then PointsOf(s.escrows[a].status) else 0;
      var more := if e.status.Pending? then named + {a} else named;
      Loose(Put(s, a, e), now, lag - before + PointsOf(e.status), open, more)
  {
    VotersPut(s.escrows, a, e);
    PutKeepsBounds(s, now, open, named, a, e);
  }

  lemma PutKeepsBounds(s: State, now: nat, open: Option<nat>, named: set<Addr>, a: Addr, e: EscrowStatus)
    requires BatchBounds(s, now, open, named)
    requires e.status.Pending? ==>
      (a in s.escrows && s.escrows[a].status == e.status) || open == Some(e.status.proposalId)
    ensures BatchBounds(Put(s, a, e), now, open, if e.status.Pending? then named + {a} else named)
  {
    forall id | id in s.batches ensures |Waiting(s.escrows[a := e], id)| <= s.batches[id].waitingEscrow {
      WaitingPut(s.escrows, a, e, id);
      assert Waiting(s.escrows[a := e], id) <= Waiting(s.escrows, id);
      SubsetSize(Waiting(s.escrows[a := e], id), Waiting(s.escrows, id));
    }
    if open.Some? {
      WaitingPut(s.escrows, a, e, open.value);
    }
  }

  /** The same with no open batch. */
  lemma PutClosed(s: State, now: nat, a: Addr, e: EscrowStatus)
    requires Loose(s, now, 0, None, {}) && StakeOk(e) && a in s.escrows
    requires e.status.Pending? ==> s.escrows[a].status == e.status
    ensures Loose(Put(s, a, e), now, PointsOf(e.status) - PointsOf(s.escrows[a].status), None, {})
  {
    PutKeeps(s, now, 0, None, {}, a, e);
  }

  /** Where the points do not change, writing the escrow alone is enough. */
  lemma PutSamePoints(s: State, lag: int, a: Addr, e: EscrowStatus)
    requires Agreement(s, lag) && a in s.escrows && PointsOf(s.escrows[a].status) == PointsOf(e.status)
    ensures Put(s, a, e) == s.(escrows := s.escrows[a := e])
  {
    assert s.members[a := s.members[a]] == s.members;
  }

  /** Removing a member without points. */
  lemma RemoveKeeps(s: State, now: nat, lag: int, open: Option<nat>, named: set<Addr>, a: Addr)
    requires Loose(s, now, lag, open, named) && a in s.escrows && s.escrows[a].status != Voting
    ensures Loose(s.(escrows := s.escrows - {a}, members := s.members - {a}), now, lag, open, named)
  {
    var escrows := s.escrows - {a};
    assert Voters(escrows) == Voters(s.escrows);
    forall id | id in s.batches ensures |Waiting(escrows, id)| <= s.batches[id].waitingEscrow {
      SubsetSize(Waiting(escrows, id), Waiting(s.escrows, id));
    }
    if open.Some? {
      assert Waiting(escrows, open.value) <= Waiting(s.escrows, open.value);
    }
  }

  /** A voting member is counted in the total. */
  lemma VoterCounted(s: State, a: Addr)
    requires Agreement(s, 0) && a in s.escrows && s.escrows[a].status == Voting
    ensures s.total >= VOTING_POINTS
  {
    assert a in Voters(s.escrows);
    SubsetSize({a}, Voters(s.escrows));
  }

  /** Everything but members and their escrow entries is as before. */
  ghost predicate SameRest(s: State, next: State) {
    next == s.(escrows := next.escrows, members := next.members, total := next.total)
  }

  /** Proposals changed at most in their points, not in content or status. */
  ghost predicate SameProposals(before: map<nat, Proposal>, after: map<nat, Proposal>) {
    && before.Keys == after.Keys
    && forall id :: id in before ==> after[id].content == before[id].content && after[id].status == before[id].status
  }

  /** Storing the open batch closes it: its counter covers the members named in it. */
  lemma CreateBatchKeeps(s: State, block: Block, lag: int, id: nat, grace: nat, addrs: seq<Addr>)
    requires Loose(s, block.Seconds(), lag, Some(id), Names(addrs))
    ensures
      var r := CreateBatch(s, block, id, grace, addrs);
      && r.Ok?
      && Loose(r.value, block.Seconds(), lag, None, {})
      && r.value == s.(batches := r.value.batches)
      && r.value.batches.Keys <= s.batches.Keys + {id}
      && (forall p :: p in s.batches ==> p in r.value.batches)
  {
    var named := Names(addrs);
    if addrs == [] {
      assert named == {};
      forall a | a in s.escrows && s.escrows[a].status.Pending?
        ensures s.escrows[a].status.proposalId in s.batches
      {
        assert a !in Waiting(s.escrows, id);
      }
    } else {
      SubsetSize(Waiting(s.escrows, id), named);
      DistinctAtMostLength(named, addrs);
    }
  }

  // ---------------------------------------------------------------- slashing

  /** Slashing splits the escrow exactly: what is sent, burned and kept is what there was. */
  lemma SlashSplits(paid: nat, p: Punishment)
    requires PunishmentChecked(p)
    ensures
      var r := SlashOf(paid, p);
      && r.Ok?
      && r.value.sent + r.value.burned + r.value.remaining == paid
      && (p.DistributeEscrow? ==>
          r.value.burned == 0 && r.value.sent <= paid * p.slashing / ONE < r.value.sent + |p.recipients|)
      && (p.BurnEscrow? ==> r.value.sent == 0 && r.value.burned == paid * p.slashing / ONE)
  {
    var slashed := paid * p.slashing / ONE;
    SlashedAtMost(paid, p.slashing);
    if p.DistributeEscrow? {
      var n := |p.recipients|;
      assert slashed == slashed / n * n + slashed % n;
    }
  }

  lemma SlashedAtMost(paid: nat, slashing: nat)
    requires slashing <= ONE
    ensures paid * slashing / ONE <= paid
  {
    MulMonotone(paid, paid, slashing, ONE);
  }
}
