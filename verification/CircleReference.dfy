/**
 The trusted circle described a second time, for its reader rather than for its storage: which messages
 are accepted, and what each leaves of every member, batch, proposal and setting. There are no loops here,
 and none of the functions of `Circle`; `CircleConformance` shows that the two agree.
 */
module CircleReference {
  import opened Base
  import opened Sums
  import opened Voting
  import opened Circle

  /** The timestamp in whole seconds. */
  function Now(block: Block): nat {
    block.time / 1_000_000_000
  }

  /** Members and escrows have the same keys, exactly voters have a point, and the total counts them. */
  ghost predicate Counted(s: State) {
    && s.members.Keys == s.escrows.Keys
    && (forall a :: a in s.escrows ==> s.members[a] == if s.escrows[a].status == Voting then 1 else 0)
    && s.total == |set a | a in s.escrows && s.escrows[a].status == Voting|
  }

  /** Enough both for the escrow in force and for a pending one. */
  predicate Meets(c: TrustedCircle, paid: nat) {
    paid >= c.escrowAmount && (c.escrowPending.Some? ==> paid >= c.escrowPending.value.amount)
  }

  // ---------------------------------------------------------------- deposits

  /** The deposit completes a pending member's escrow. */
  predicate PaysUp(s: State, sender: Addr, amount: nat)
    requires sender in s.escrows
  {
    s.escrows[sender].status.Pending? && Meets(s.circle, s.escrows[sender].paid + amount)
  }

  /** One payment more and the batch may be promoted: it is the last one, or the time is over. */
  predicate InTurn(s: State, block: Block, id: nat)
    requires id in s.batches
  {
    s.batches[id].waitingEscrow == 1 || s.batches[id].graceEndsAt <= Now(block)
  }

  /** Members who are to pay, have paid or vote may deposit; but not if that is to promote a batch of which
      somebody is gone. */
  predicate DepositAccepted(s: State, block: Block, sender: Addr, amount: nat) {
    && amount > 0 && sender in s.escrows
    && !s.escrows[sender].status.NonVoting? && !s.escrows[sender].status.Leaving?
    && (PaysUp(s, sender, amount) ==>
          var id := s.escrows[sender].status.proposalId;
          && id in s.batches && s.batches[id].waitingEscrow > 0
          && (InTurn(s, block, id) && !s.batches[id].batchPromoted ==>
                forall a :: a in s.batches[id].members ==> a in s.escrows))
  }

  function AfterDeposit(s: State, block: Block, sender: Addr, amount: nat, a: Addr): EscrowStatus
    requires DepositAccepted(s, block, sender, amount) && a in s.escrows
  {
    var e := if a == sender then s.escrows[a].(paid := s.escrows[a].paid + amount) else s.escrows[a];
    if !PaysUp(s, sender, amount) then e
    else
      var id := s.escrows[sender].status.proposalId;
      var paid := if a == sender then e.(status := PendingPaid(id)) else e;
      var named := if s.batches[id].batchPromoted then a == sender else a in s.batches[id].members;
      if InTurn(s, block, id) && named && paid.status.PendingPaid? then paid.(status := Voting) else paid
  }

  ghost predicate DepositEffect(s: State, block: Block, sender: Addr, amount: nat, next: State)
    requires DepositAccepted(s, block, sender, amount)
  {
    && next == s.(escrows := next.escrows, members := next.members, total := next.total, batches := next.batches,
                  ledger := s.ledger.(deposited := s.ledger.deposited + amount))
    && next.escrows.Keys == s.escrows.Keys
    && (forall a :: a in s.escrows ==> next.escrows[a] == AfterDeposit(s, block, sender, amount, a))
    && next.batches == (if !PaysUp(s, sender, amount) then s.batches else
                          var id := s.escrows[sender].status.proposalId;
                          var batch := s.batches[id];
                          s.batches[id := batch.(waitingEscrow := batch.waitingEscrow - 1,
                                                 batchPromoted := batch.batchPromoted || InTurn(s, block, id))])
    && Counted(next)
  }

  // ---------------------------------------------------------------- refunds

  /** A voter who stays above both escrow amounts, or a leaver whose time has come. */
  predicate ReturnAccepted(s: State, block: Block, sender: Addr) {
    && sender in s.escrows
    && match s.escrows[sender].status
       case Voting => Meets(s.circle, s.escrows[sender].paid)
       case Leaving(claimAt) => claimAt <= Now(block)
       case NonVoting => false
       case Pending(_) => false
       case PendingPaid(_) => false
  }

  /** A voter keeps the larger of the two amounts, a leaver nothing; and then he is gone. */
  ghost predicate ReturnEffect(s: State, block: Block, sender: Addr, next: State)
    requires ReturnAccepted(s, block, sender)
  {
    var paid := s.escrows[sender].paid;
    if s.escrows[sender].status == Voting then
      && sender in next.escrows
      && var kept := next.escrows[sender].paid;
         && kept <= paid && Meets(s.circle, kept)
         && (kept == s.circle.escrowAmount
             || (s.circle.escrowPending.Some? && kept == s.circle.escrowPending.value.amount))
         && next == s.(escrows := s.escrows[sender := EscrowStatus(kept, Voting)],
                       ledger := s.ledger.(refunded := s.ledger.refunded + (paid - kept)))
    else if paid == 0 then next == s
    else next == s.(escrows := s.escrows - {sender}, members := s.members - {sender},
                    ledger := s.ledger.(refunded := s.ledger.refunded + paid))
  }

  // ---------------------------------------------------------------- pending changes

  predicate ChangeDue(s: State, block: Block) {
    s.circle.escrowPending.Some? && s.circle.escrowPending.value.graceEndsAt <= Now(block)
  }

  predicate BatchReady(batch: Batch, block: Block) {
    !batch.batchPromoted && batch.graceEndsAt <= Now(block)
  }

  ghost predicate CheckAccepted(s: State, block: Block) {
    forall id, a :: id in s.batches && BatchReady(s.batches[id], block) && a in s.batches[id].members ==> a in s.escrows
  }

  /** The voters whom a due rise of the escrow finds below it. */
  function Demoted(s: State, block: Block): set<Addr> {
    set a | a in s.escrows && s.escrows[a].status == Voting && ChangeDue(s, block)
            && s.escrows[a].paid < s.circle.escrowPending.value.amount
            && s.circle.escrowAmount < s.circle.escrowPending.value.amount
  }

  ghost predicate NamedReady(s: State, block: Block, a: Addr) {
    exists id :: id in s.batches && BatchReady(s.batches[id], block) && a in s.batches[id].members
  }

  /** A due rise makes voters below it pay again, a due reduction lets those who reach it count as paid; and
      then the paid members of ready batches vote. */
  ghost function AfterCheck(s: State, block: Block, a: Addr): EscrowStatus
    requires a in s.escrows
  {
    var e := s.escrows[a];
    var changed :=
      if a in Demoted(s, block) then e.(status := MemberStatus.Pending(s.circle.escrowPending.value.proposalId))
      else if ChangeDue(s, block) && s.circle.escrowPending.value.amount < s.circle.escrowAmount
              && e.status.Pending? && s.circle.escrowPending.value.amount <= e.paid then
        e.(status := PendingPaid(e.status.proposalId))
      else e;
    if changed.status.PendingPaid? && NamedReady(s, block, a) then changed.(status := Voting) else changed
  }

  /** The ready batches are promoted, and the demoted get one of their own, promoted at once. */
  ghost predicate BatchesChecked(s: State, block: Block, batches: map<nat, Batch>) {
    && (forall id :: id in s.batches ==>
          id in batches
          && batches[id] == if BatchReady(s.batches[id], block) then s.batches[id].(batchPromoted := true)
                            else s.batches[id])
    && (if Demoted(s, block) == {} then batches.Keys == s.batches.Keys
        else
          var id := s.circle.escrowPending.value.proposalId;
          && batches.Keys == s.batches.Keys + {id} && id !in s.batches
          && batches[id] == Batch(Now(block), |Demoted(s, block)|, true, batches[id].members)
          && StrictlyAscending(batches[id].members)
          && forall a :: a in batches[id].members <==> a in Demoted(s, block))
  }

  ghost predicate CheckEffect(s: State, block: Block, next: State) {
    && next == s.(escrows := next.escrows, members := next.members, total := next.total, batches := next.batches,
                  circle := if !ChangeDue(s, block) then s.circle
                            else s.circle.(escrowAmount := s.circle.escrowPending.value.amount, escrowPending := None))
    && next.escrows.Keys == s.escrows.Keys
    && (forall a :: a in s.escrows ==> next.escrows[a] == AfterCheck(s, block, a))
    && BatchesChecked(s, block, next.batches)
    && Counted(next)
  }

  // ---------------------------------------------------------------- proposing

  /** The settings that an edit would install are valid, each by itself. */
  predicate ValidEdit(adj: Adjustments) {
    && (adj.name.Some? ==> !IsBlank(adj.name.value) && Utf8Length(adj.name.value) <= 1024)
    && (adj.escrowAmount.Some? ==> adj.escrowAmount.value >= 1_000_000)
    && (adj.votingPeriod.Some? ==> 1 <= adj.votingPeriod.value <= 365)
    && (adj.quorum.Some? ==> 0 < adj.quorum.value <= ONE)
    && (adj.threshold.Some? ==> HALF <= adj.threshold.value <= ONE)
  }

  predicate AllHuman(addrs: seq<Addr>, others: Others) {
    forall a :: a in addrs ==> a !in others.contracts && a !in others.denied
  }

  /** Content that may be proposed to a circle whose pending changes have been checked. */
  predicate ContentAccepted(s: State, content: Content, others: Others) {
    match content
    case EditTrustedCircle(adj) =>
      !s.circle.editDisabled && (adj.escrowAmount.Some? ==> s.circle.escrowPending.None?) && ValidEdit(adj)
    case AddRemoveNonVotingMembers(remove, add) => (add != [] || remove != []) && AllHuman(add, others)
    case AddVotingMembers(voters) => voters != [] && AllHuman(voters, others)
    case PunishMembers(ps) => ps != [] && forall i :: 0 <= i < |ps| ==>
        && ps[i].slashing <= ONE && (ps[i].DistributeEscrow? ==> ps[i].recipients != [])
        && ps[i].member in s.escrows && s.escrows[ps[i].member].status != NonVoting
    case WhitelistContract(a) => a in others.contracts
    case RemoveContract(a) => a in others.contracts
  }

  /** The tally passes before expiry, measured against so many points. */
  predicate PassesEarly(rules: Rules, votes: Votes, points: nat) {
    && rules.allowEndEarly && votes.abstain <= points
    && Enough(votes.yes + votes.no + votes.abstain + votes.veto, points, rules.quorum)
    && Enough(votes.yes, points - votes.abstain, rules.threshold)
  }

  /** A new proposal of a voter, under the next id, with his vote: it may pass at once, if it may end early. */
  predicate Drafted(s: State, block: Block, sender: Addr, content: Content, next: State) {
    var id, rules := s.proposalCount + 1, s.circle.rules;
    var expires := block.time + rules.votingPeriod * 86_400 * 1_000_000_000;
    var status := if PassesEarly(rules, Votes(1, 0, 0, 0), s.total) then Passed else Open;
    next == s.(
      proposals := s.proposals[id :=
        Proposal(block.height, expires, content, status, rules, s.total, Votes(1, 0, 0, 0))],
      proposalCount := id,
      byExpiry := s.byExpiry[expires / 1_000_000_000 := id],
      ballots := s.ballots[(id, sender) := Ballot(1, Yes)])
  }

  /** The state before the new proposal: pending changes are checked first, except in the first block. */
  ghost predicate Prepared(s: State, block: Block, checked: State) {
    if block.height > 0 then CheckAccepted(s, block) && CheckEffect(s, block, checked) else checked == s
  }

  ghost predicate ProposalMade(s: State, block: Block, sender: Addr, content: Content, others: Others, next: State) {
    exists checked ::
      && Prepared(s, block, checked)
      && sender in checked.escrows && checked.escrows[sender].status == Voting
      && ContentAccepted(checked, content, others)
      && Drafted(checked, block, sender, content, next)
  }

  // ---------------------------------------------------------------- voting and closing

  predicate VoteAccepted(s: State, block: Block, sender: Addr, id: nat, power: nat) {
    && id in s.proposals && (s.proposals[id].status == Open || s.proposals[id].status == Passed)
    && block.time < s.proposals[id].expires
    && power > 0 && sender in s.escrows && s.escrows[sender].status == Voting && (id, sender) !in s.ballots
  }

  /** The power is added to the option voted for, and to no other. */
  function WithVote(votes: Votes, vote: Vote, power: nat): Votes {
    Votes(if vote == Yes then votes.yes + power else votes.yes,
          if vote == No then votes.no + power else votes.no,
          if vote == Abstain then votes.abstain + power else votes.abstain,
          if vote == Veto then votes.veto + power else votes.veto)
  }

  /** Abstentions beyond the points, which leavers took away, make the subtraction trap. */
  predicate TallyTraps(p: Proposal, votes: Votes) {
    && p.status == Open && p.rules.allowEndEarly && votes.abstain > p.totalPoints
    && Enough(votes.yes + votes.no + votes.abstain + votes.veto, p.totalPoints, p.rules.quorum)
  }

  predicate VoteEffect(s: State, sender: Addr, id: nat, vote: Vote, power: nat, next: State)
    requires id in s.proposals
  {
    var p := s.proposals[id];
    var votes := WithVote(p.votes, vote, power);
    var status := if p.status == Open && PassesEarly(p.rules, votes, p.totalPoints) then Passed else p.status;
    next == s.(proposals := s.proposals[id := p.(votes := votes, status := status)],
               ballots := s.ballots[(id, sender) := Ballot(power, vote)])
  }

  predicate CloseAccepted(s: State, block: Block, id: nat) {
    && id in s.proposals && s.proposals[id].expires <= block.time
    && s.proposals[id].status != Executed && s.proposals[id].status != Rejected && s.proposals[id].status != Passed
  }

  // ---------------------------------------------------------------- leaving

  /** A proposal a leaver's point is to be taken from: open, not voted on by him, its second ahead, and the
      last one made of those that expire in that second. */
  ghost predicate TakesPoint(s: State, block: Block, leaver: Addr, id: nat)
    requires id in s.proposals
  {
    && s.proposals[id].status == Open && (id, leaver) !in s.ballots
    && Now(block) < s.proposals[id].expires / 1_000_000_000
    && forall other :: other in s.proposals && other > id ==>
         s.proposals[other].expires / 1_000_000_000 != s.proposals[id].expires / 1_000_000_000
  }

  ghost predicate PointsTaken(s: State, block: Block, leaver: Addr, proposals: map<nat, Proposal>) {
    && proposals.Keys == s.proposals.Keys
    && forall id :: id in s.proposals ==>
         var p := s.proposals[id];
         if TakesPoint(s, block, leaver, id) then
           p.totalPoints > 0 && proposals[id] == p.(totalPoints := p.totalPoints - 1)
         else proposals[id] == p
  }

  /** Two voting periods from now. */
  function ClaimTime(s: State, block: Block): nat {
    Now(block) + 2 * s.circle.rules.votingPeriod * 86_400
  }

  /** Who has nothing at stake is gone at once, and everybody else waits; a voter's point is taken away. */
  ghost predicate HasLeft(s: State, block: Block, sender: Addr, next: State) {
    && sender in s.escrows && !s.escrows[sender].status.Leaving?
    && var e := s.escrows[sender];
       if e.status.NonVoting? || (e.status.Pending? && e.paid == 0) then
         next == s.(escrows := s.escrows - {sender}, members := s.members - {sender})
       else
         && next == s.(escrows := s.escrows[sender := e.(status := Leaving(ClaimTime(s, block)))],
                       members := next.members, total := next.total, proposals := next.proposals)
         && (if e.status == Voting then PointsTaken(s, block, sender, next.proposals)
             else next.proposals == s.proposals)
         && Counted(next)
  }

  // ---------------------------------------------------------------- executed proposals

  /** Everybody in the first list is a member, nobody in the second is, and nobody else is touched. */
  ghost predicate AddedAndRemoved(s: State, add: seq<Addr>, remove: seq<Addr>, denied: set<Addr>, next: State) {
    && (forall a :: a in add ==> a !in denied)
    && (forall a :: a in remove && a in s.escrows ==> s.escrows[a].status == NonVoting)
    && next == s.(escrows := next.escrows, members := next.members)
    && (forall a :: a in next.escrows <==> (a in s.escrows || a in add) && a !in remove)
    && (forall a :: a in next.escrows ==>
          next.escrows[a] == if a in s.escrows then s.escrows[a] else EscrowStatus(0, NonVoting))
    && Counted(next)
  }

  /** Whoever is named and not more than a non-voting member is to pay by the end of a voting period. */
  ghost predicate VotersAdded(s: State, block: Block, id: nat, voters: seq<Addr>, denied: set<Addr>, next: State) {
    && (forall a :: a in voters ==> a !in denied)
    && next == s.(escrows := next.escrows, members := next.members, batches := next.batches)
    && (forall a :: a in next.escrows <==> a in s.escrows || a in voters)
    && (forall a :: a in next.escrows ==>
          next.escrows[a] == if a in s.escrows && (a !in voters || s.escrows[a].status != NonVoting) then s.escrows[a]
                             else EscrowStatus(0, MemberStatus.Pending(id)))
    && next.batches == (if voters == [] then s.batches else
         s.batches[id := Batch(Now(block) + s.circle.rules.votingPeriod * 86_400, |voters|, false, voters)])
    && Counted(next)
  }

  /** Each setting is the given one, or else as before; a different escrow waits for one new voting period. */
  predicate Edited(s: State, block: Block, id: nat, adj: Adjustments, next: State) {
    var c, d := s.circle, next.circle;
    && !c.editDisabled && (adj.escrowAmount.Some? ==> c.escrowPending.None?)
    && next == s.(circle := d)
    && d.name == (if adj.name.Some? then adj.name.value else c.name)
    && d.rules.votingPeriod == (if adj.votingPeriod.Some? then adj.votingPeriod.value else c.rules.votingPeriod)
    && d.rules.quorum == (if adj.quorum.Some? then adj.quorum.value else c.rules.quorum)
    && d.rules.threshold == (if adj.threshold.Some? then adj.threshold.value else c.rules.threshold)
    && d.rules.allowEndEarly == (if adj.allowEndEarly.Some? then adj.allowEndEarly.value else c.rules.allowEndEarly)
    && d.editDisabled == (adj.editDisabled.Some? && adj.editDisabled.value)
    && d.escrowAmount == c.escrowAmount
    && d.escrowPending == (if adj.escrowAmount.Some? && adj.escrowAmount.value != c.escrowAmount
                           then Some(PendingEscrow(id, adj.escrowAmount.value,
                                                   Now(block) + d.rules.votingPeriod * 86_400))
                           else c.escrowPending)
  }

  /** What of a slashed amount leaves the contract: all of it is burned, or the same whole number of tokens
      goes to each recipient. */
  ghost predicate Charges(s: State, slashed: nat, p: Punishment, taken: nat, ledger: Ledger) {
    match p
    case BurnEscrow(_, _, _) => taken == slashed && ledger == s.ledger.(burned := s.ledger.burned + slashed)
    case DistributeEscrow(_, _, recipients, _) =>
      && recipients != []
      && var each, paid, n := slashed / |recipients|, s.ledger.payments, if slashed == 0 then 0 else |recipients|;
         && taken == each * |recipients|
         && ledger == s.ledger.(sent := s.ledger.sent + taken, payments := ledger.payments)
         && |ledger.payments| == |paid| + n && ledger.payments[..|paid|] == paid
         && forall i :: 0 <= i < n ==> ledger.payments[|paid| + i] == Payment(recipients[i], each)
  }

  /** One punishment: who is kicked out is leaving, and who is left below an escrow amount has to pay again. */
  ghost predicate PunishedBy(s: State, block: Block, id: nat, p: Punishment, demoted: bool, next: State) {
    && p.member in s.escrows && s.escrows[p.member].status != NonVoting
    && var before := s.escrows[p.member];
       && p.member in next.escrows && var after := next.escrows[p.member];
       && after.paid <= before.paid
       && Charges(s, before.paid * p.slashing / ONE, p, before.paid - after.paid, next.ledger)
       && demoted == (!p.kickOut && !Meets(s.circle, after.paid))
       && after.status == (if p.kickOut then Leaving(ClaimTime(s, block))
                           else if demoted then MemberStatus.Pending(id) else before.status)
       && (if p.kickOut && before.status == Voting then PointsTaken(s, block, p.member, next.proposals)
           else next.proposals == s.proposals)
       && next == s.(escrows := s.escrows[p.member := after], members := next.members, total := next.total,
                     proposals := next.proposals, ledger := next.ledger)
       && Counted(next)
  }

  /** One punishment after the other, and the members they demoted. */
  ghost predicate PunishedInTurn(s: State, block: Block, id: nat, ps: seq<Punishment>, demoted: seq<Addr>, next: State)
    decreases |ps|
  {
    if ps == [] then demoted == [] && next == s
    else
      exists middle, again ::
        && PunishedBy(s, block, id, ps[0], again, middle)
        && (again ==> demoted != [] && demoted[0] == ps[0].member)
        && PunishedInTurn(middle, block, id, ps[1..], if again then demoted[1..] else demoted, next)
  }

  /** The demoted are named in a batch of the proposal, to be promoted as soon as they pay. */
  ghost predicate AllPunished(s: State, block: Block, id: nat, ps: seq<Punishment>, next: State) {
    exists middle, demoted ::
      && PunishedInTurn(s, block, id, ps, demoted, middle)
      && next == middle.(batches := if demoted == [] then s.batches
                                    else s.batches[id := Batch(Now(block), |demoted|, false, demoted)])
  }

  ghost predicate ContentExecuted(s: State, block: Block, id: nat, content: Content, denied: set<Addr>, next: State) {
    match content
    case AddRemoveNonVotingMembers(remove, add) => AddedAndRemoved(s, add, remove, denied, next)
    case WhitelistContract(contract) => AddedAndRemoved(s, [contract], [], denied, next)
    case RemoveContract(contract) => AddedAndRemoved(s, [], [contract], denied, next)
    case AddVotingMembers(voters) => VotersAdded(s, block, id, voters, denied, next)
    case EditTrustedCircle(adj) => Edited(s, block, id, adj, next)
    case PunishMembers(ps) => AllPunished(s, block, id, ps, next)
  }

  /** A passed proposal is marked as executed, and its content takes effect. */
  ghost predicate ProposalExecuted(s: State, block: Block, id: nat, denied: set<Addr>, next: State) {
    && id in s.proposals && s.proposals[id].status == Passed
    && ContentExecuted(s.(proposals := s.proposals[id := s.proposals[id].(status := Executed)]), block, id,
                       s.proposals[id].content, denied, next)
  }

  // ---------------------------------------------------------------- all messages

  /** The message is accepted, and leaves `next`. */
  ghost predicate Transition(s: State, call: Call, next: State) {
    var block, sender := call.block, call.sender;
    match call.message
    case DepositEscrow(amount) =>
      DepositAccepted(s, block, sender, amount) && DepositEffect(s, block, sender, amount, next)
    case ReturnEscrow => ReturnAccepted(s, block, sender) && ReturnEffect(s, block, sender, next)
    case Propose(content, others) => ProposalMade(s, block, sender, content, others, next)
    case CastVote(id, vote, power) =>
      && VoteAccepted(s, block, sender, id, power)
      && !TallyTraps(s.proposals[id], WithVote(s.proposals[id].votes, vote, power))
      && VoteEffect(s, sender, id, vote, power, next)
    case Execute(id, others) => ProposalExecuted(s, block, id, others.denied, next)
    case Close(id) =>
      CloseAccepted(s, block, id)
      && next == s.(proposals := s.proposals[id := s.proposals[id].(status := Rejected)])
    case LeaveTrustedCircle => HasLeft(s, block, sender, next)
    case CheckPending => CheckAccepted(s, block) && CheckEffect(s, block, next)
  }

  /** A circle is founded with valid settings and nobody denied, by a first voter with enough escrow. */
  ghost predicate FoundedBy(sender: Addr, amount: nat, msg: InstantiateMsg, denied: set<Addr>, s: State) {
    && 0 < msg.rules.quorum <= ONE && HALF <= msg.rules.threshold <= ONE && 1 <= msg.rules.votingPeriod <= 365
    && !IsBlank(msg.name) && Utf8Length(msg.name) <= 1024 && 1_000_000 <= msg.escrowAmount <= amount
    && (forall a :: a in msg.initialMembers ==> a !in denied)
    && s == State(TrustedCircle(msg.name, msg.escrowAmount, None, msg.rules, msg.editDisabled), s.members, s.escrows, 1,
                  map[], map[], 0, map[], map[], Ledger(amount, 0, 0, 0, []))
    && (forall a :: a in s.escrows <==> a == sender || a in msg.initialMembers)
    && (forall a :: a in s.escrows ==>
          s.escrows[a] == if a == sender then EscrowStatus(amount, Voting) else EscrowStatus(0, NonVoting))
    && Counted(s)
  }
}
