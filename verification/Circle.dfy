/**
 The trusted circle: membership, batches of new voters, escrow, and the proposals that change
 them. `State` is what the contract keeps together with a ledger of the escrow tokens that
 moved; each handler maps a state to the next one or to an error.
 */
module Circle {
  import opened Base
  import opened Sums
  import opened Voting

  const VOTING_POINTS: nat := 1
  const ONE_TGD: nat := 1_000_000
  const SECONDS_PER_DAY: nat := 86_400
  const MAX_NAME_LENGTH: nat := 1024

  datatype Error =
    // refusals
    | NotAMember | InvalidPayment | InsufficientFunds | InvalidStatus | CannotClaimYet | BelowEscrow
    | Unauthorized | NotOpen | Expired | NotExpired | AlreadyVoted | WrongExecuteStatus | WrongCloseStatus
    | FrozenRules | PendingEscrowAlreadySet | NoMembers | NoPunishments | EmptyDistributionList
    | InvalidSlashingPercentage | PunishInvalidMemberStatus | VotingMember | AlreadyUsedProposal
    | InvalidQuorum | InvalidThreshold | InvalidVotingPeriod | EmptyName | LongName
    | InvalidEscrow | InvalidPendingEscrow | NotAHuman | NotAContract | DeniedAddress
    // storage entries that are not there
    | MissingEscrow | MissingBatch | MissingProposal
    // traps
    | WaitingUnderflow | TotalUnderflow | PointsUnderflow | SlashUnderflow | DivisionByZero

  // ---------------------------------------------------------------- the circle's own settings

  datatype Rules = Rules(votingPeriod: nat, quorum: Fraction, threshold: Fraction, allowEndEarly: bool) {
    function PeriodSeconds(): nat {
      votingPeriod * SECONDS_PER_DAY
    }

    function Validate(): Result<(), Error> {
      if quorum == 0 || quorum > ONE then Err(InvalidQuorum)
      else if threshold < HALF || threshold > ONE then Err(InvalidThreshold)
      else if votingPeriod == 0 || votingPeriod > 365 then Err(InvalidVotingPeriod)
      else Ok(())
    }
  }

  datatype PendingEscrow = PendingEscrow(proposalId: nat, amount: nat, graceEndsAt: nat)

  datatype TrustedCircle = TrustedCircle(
    name: string,
    escrowAmount: nat,
    escrowPending: Option<PendingEscrow>,
    rules: Rules,
    editDisabled: bool)
  {
    function Validate(): Result<(), Error> {
      match rules.Validate()
      case Err(e) => Err(e)
      case Ok(_) =>
        if IsBlank(name) then Err(EmptyName)
        else if Utf8Length(name) > MAX_NAME_LENGTH then Err(LongName)
        else if escrowAmount < ONE_TGD then Err(InvalidEscrow)
        else if escrowPending.Some? && escrowPending.value.amount < ONE_TGD then Err(InvalidPendingEscrow)
        else Ok(())
    }

    /** The larger of the current and the pending escrow. */
    function GetEscrow(): nat {
      match escrowPending
      case None => escrowAmount
      case Some(p) => if p.amount > escrowAmount then p.amount else escrowAmount
    }

    function ApplyAdjustments(block: Block, proposalId: nat, adj: Adjustments): Result<TrustedCircle, Error> {
      var period := match adj.votingPeriod case Some(v) => v case None => rules.votingPeriod;
      if adj.escrowAmount.Some? && escrowPending.Some? then Err(PendingEscrowAlreadySet)
      else
        var pending :=
          if adj.escrowAmount.Some? && adj.escrowAmount.value != escrowAmount then
            Some(PendingEscrow(proposalId, adj.escrowAmount.value, block.Seconds() + period * SECONDS_PER_DAY))
          else escrowPending;
        Ok(TrustedCircle(
          (match adj.name case Some(n) => n case None => name),
          escrowAmount,
          pending,
          Rules(period,
                (match adj.quorum case Some(q) => q case None => rules.quorum),
                (match adj.threshold case Some(t) => t case None => rules.threshold),
                (match adj.allowEndEarly case Some(b) => b case None => rules.allowEndEarly)),
          (match adj.editDisabled case Some(b) => b case None => editDisabled)))
    }
  }

  datatype Adjustments = Adjustments(
    name: Option<string>,
    escrowAmount: Option<nat>,
    votingPeriod: Option<nat>,
    quorum: Option<Fraction>,
    threshold: Option<Fraction>,
    allowEndEarly: Option<bool>,
    editDisabled: Option<bool>)

  /** Unicode white space, which trimming a name removes. */
  predicate IsWhiteSpace(c: char) {
    var n := c as int;
    || 0x9 <= n <= 0xD || n == 0x20 || n == 0x85 || n == 0xA0 || n == 0x1680 || 0x2000 <= n <= 0x200A
    || n == 0x2028 || n == 0x2029 || n == 0x202F || n == 0x205F || n == 0x3000
  }

  predicate IsBlank(name: string) {
    forall i :: 0 <= i < |name| ==> IsWhiteSpace(name[i])
  }

  function Utf8Width(c: char): nat {
    var n := c as int;
    if n < 0x80 then 1 else if n < 0x800 then 2 else if n < 0x10000 then 3 else 4
  }

  function Utf8Length(name: string): nat {
    if name == [] then 0 else Utf8Width(name[0]) + Utf8Length(name[1..])
  }

  // ---------------------------------------------------------------- members and batches

  datatype MemberStatus =
    | NonVoting
    | Pending(proposalId: nat)
    | PendingPaid(proposalId: nat)
    | Voting
    | Leaving(claimAt: nat)

  datatype EscrowStatus = EscrowStatus(paid: nat, status: MemberStatus)

  datatype Batch = Batch(graceEndsAt: nat, waitingEscrow: nat, batchPromoted: bool, members: seq<Addr>) {
    predicate CanPromote(block: Block) {
      waitingEscrow == 0 || block.time >= graceEndsAt * NANOS_PER_SECOND
    }

    /** To be promoted by timeout. */
    predicate IsReady(now: nat) {
      !batchPromoted && graceEndsAt <= now
    }
  }

  // ---------------------------------------------------------------- proposals

  datatype Punishment =
    | DistributeEscrow(member: Addr, slashing: Fraction, recipients: seq<Addr>, kickOut: bool)
    | BurnEscrow(member: Addr, slashing: Fraction, kickOut: bool)

  datatype Content =
    | AddRemoveNonVotingMembers(remove: seq<Addr>, add: seq<Addr>)
    | EditTrustedCircle(adjustments: Adjustments)
    | AddVotingMembers(voters: seq<Addr>)
    | PunishMembers(punishments: seq<Punishment>)
    | WhitelistContract(contract: Addr)
    | RemoveContract(contract: Addr)

  datatype Proposal = Proposal(
    startHeight: nat,
    expires: nat,
    content: Content,
    status: Status,
    rules: Rules,
    totalPoints: nat,
    votes: Votes)
  {
    function IsExpired(block: Block): bool {
      block.time >= expires
    }

    /** The tally predicate; the subtraction traps when leavers took the total below the abstentions. */
    function IsPassed(block: Block): Result<bool, Error> {
      if votes.Total() < VotesNeeded(totalPoints, rules.quorum) then Ok(false)
      else if IsExpired(block) then
        Ok(votes.yes >= VotesNeeded(votes.Total() - votes.abstain, rules.threshold))
      else if rules.allowEndEarly then
        if votes.abstain > totalPoints then Err(PointsUnderflow)
        else Ok(votes.yes >= VotesNeeded(totalPoints - votes.abstain, rules.threshold))
      else Ok(false)
    }

    function UpdateStatus(block: Block): Result<Proposal, Error> {
      if status != Open then Ok(this)
      else
        match IsPassed(block)
        case Err(e) => Err(e)
        case Ok(passed) =>
          Ok(this.(status := if passed then Passed else if IsExpired(block) then Rejected else Open))
    }
  }

  // ---------------------------------------------------------------- storage

  datatype Payment = Payment(to: Addr, amount: nat)

  /** Escrow tokens that came in, and that left as refunds, as slashed payments, or burned; and the
      payments themselves. */
  datatype Ledger = Ledger(deposited: nat, refunded: nat, sent: nat, burned: nat, payments: seq<Payment>)

  datatype State = State(
    circle: TrustedCircle,
    members: map<Addr, nat>,
    escrows: map<Addr, EscrowStatus>,
    total: nat,
    batches: map<nat, Batch>,
    proposals: map<nat, Proposal>,
    proposalCount: nat,
    byExpiry: map<nat, nat>,
    ballots: map<(nat, Addr), Ballot>,
    ledger: Ledger)

  /** What other contracts answer at the time of a call: who is on the circle's deny list, nobody if it
      has none, and which addresses are contracts. */
  datatype Others = Others(denied: set<Addr>, contracts: set<Addr>)

  predicate AnyIn(addrs: seq<Addr>, s: set<Addr>) {
    exists i :: 0 <= i < |addrs| && addrs[i] in s
  }

  datatype Message =
    | DepositEscrow(amount: nat)
    | ReturnEscrow
    | Propose(content: Content, others: Others)
    | CastVote(proposalId: nat, vote: Vote, power: nat)
    | Execute(proposalId: nat, others: Others)
    | Close(proposalId: nat)
    | LeaveTrustedCircle
    | CheckPending

  /** For a vote, `power` is the voter's entry in the member snapshot at the proposal's start. */
  type Call = Transaction<Message>

  // ---------------------------------------------------------------- promotion

  function CreateBatch(s: State, block: Block, id: nat, grace: nat, addrs: seq<Addr>): Result<State, Error> {
    if addrs == [] then Ok(s)
    else if id in s.batches then Err(AlreadyUsedProposal)
    else Ok(s.(batches := s.batches[id := Batch(block.Seconds() + grace, |addrs|, false, addrs)]))
  }

  function ConvertIfPaid(s: State, a: Addr): Result<(State, bool), Error> {
    if a !in s.escrows then Err(MissingEscrow)
    else if !s.escrows[a].status.PendingPaid? then Ok((s, false))
    else
      Ok((s.(escrows := s.escrows[a := s.escrows[a].(status := Voting)],
             members := s.members[a := VOTING_POINTS]), true))
  }

  /** Converts all that paid, and counts them. */
  function ConvertEach(s: State, addrs: seq<Addr>): Result<(State, nat), Error>
    decreases |addrs|
  {
    if addrs == [] then Ok((s, 0))
    else
      match ConvertIfPaid(s, addrs[0])
      case Err(e) => Err(e)
      case Ok((next, converted)) =>
        match ConvertEach(next, addrs[1..])
        case Err(e) => Err(e)
        case Ok((last, added)) => Ok((last, (if converted then VOTING_POINTS else 0) + added))
  }

  function ConvertAllPaid(s: State, id: nat, batch: Batch): Result<State, Error> {
    match ConvertEach(s, batch.members)
    case Err(e) => Err(e)
    case Ok((next, added)) =>
      Ok(next.(batches := next.batches[id := batch.(batchPromoted := true)], total := next.total + added))
  }

  function UpdateBatchAfterEscrowPaid(s: State, block: Block, id: nat, a: Addr): Result<State, Error> {
    if id !in s.batches then Err(MissingBatch)
    else if s.batches[id].waitingEscrow == 0 then Err(WaitingUnderflow)
    else
      var batch := s.batches[id].(waitingEscrow := s.batches[id].waitingEscrow - 1);
      var saved := s.(batches := s.batches[id := batch]);
      if !batch.CanPromote(block) then Ok(saved)
      else if !batch.batchPromoted then ConvertAllPaid(s, id, batch)
      else
        match ConvertIfPaid(saved, a)
        case Err(e) => Err(e)
        case Ok((next, converted)) => Ok(if converted then next.(total := next.total + VOTING_POINTS) else next)
  }

  // ---------------------------------------------------------------- escrow

  function Deposit(s: State, block: Block, sender: Addr, amount: nat): Result<State, Error> {
    if sender !in s.escrows then Err(NotAMember)
    else if amount == 0 then Err(InvalidPayment)
    else
      var escrow := s.escrows[sender].(paid := s.escrows[sender].paid + amount);
      var ledger := s.ledger.(deposited := s.ledger.deposited + amount);
      match escrow.status
      case Pending(id) =>
        if escrow.paid >= s.circle.GetEscrow() then
          var paid := s.(escrows := s.escrows[sender := escrow.(status := PendingPaid(id))], ledger := ledger);
          UpdateBatchAfterEscrowPaid(paid, block, id, sender)
        else Ok(s.(escrows := s.escrows[sender := escrow], ledger := ledger))
      case PendingPaid(_) => Ok(s.(escrows := s.escrows[sender := escrow], ledger := ledger))
      case Voting => Ok(s.(escrows := s.escrows[sender := escrow], ledger := ledger))
      case NonVoting => Err(InvalidStatus)
      case Leaving(_) => Err(InvalidStatus)
  }

  /** What the sender may take back now. */
  function Refund(s: State, block: Block, sender: Addr): Result<nat, Error> {
    if sender !in s.escrows then Err(NotAMember)
    else
      var escrow := s.escrows[sender];
      match escrow.status
      case Voting =>
        if escrow.paid < s.circle.GetEscrow() then Err(BelowEscrow) else Ok(escrow.paid - s.circle.GetEscrow())
      case Leaving(claimAt) => if claimAt <= block.Seconds() then Ok(escrow.paid) else Err(CannotClaimYet)
      case NonVoting => Err(InvalidStatus)
      case Pending(_) => Err(InvalidStatus)
      case PendingPaid(_) => Err(InvalidStatus)
  }

  function Return(s: State, block: Block, sender: Addr): Result<State, Error> {
    match Refund(s, block, sender)
    case Err(e) => Err(e)
    case Ok(refund) =>
      if refund == 0 then Ok(s)
      else
        var escrow := s.escrows[sender];
        if refund > escrow.paid then Err(BelowEscrow)
        else
          var ledger := s.ledger.(refunded := s.ledger.refunded + refund);
          if refund == escrow.paid then
            Ok(s.(escrows := s.escrows - {sender}, members := s.members - {sender}, ledger := ledger))
          else
            Ok(s.(escrows := s.escrows[sender := escrow.(paid := escrow.paid - refund)], ledger := ledger))
  }

  // ---------------------------------------------------------------- leaving

  /** The proposals that have not expired, in order of expiry. */
  function OpenProposalIds(byExpiry: map<nat, nat>, now: nat): seq<nat> {
    var keys := Ascending(set k | k in byExpiry && now < k);
    seq(|keys|, i requires 0 <= i < |keys| => assert keys[i] in keys; byExpiry[keys[i]])
  }

  function AdjustForLeaver(proposals: map<nat, Proposal>, ballots: map<(nat, Addr), Ballot>, leaver: Addr,
                           ids: seq<nat>)
    : Result<map<nat, Proposal>, Error>
    decreases |ids|
  {
    if ids == [] then Ok(proposals)
    else if (ids[0], leaver) in ballots then AdjustForLeaver(proposals, ballots, leaver, ids[1..])
    else if ids[0] !in proposals then Err(MissingProposal)
    else if proposals[ids[0]].status != Open then AdjustForLeaver(proposals, ballots, leaver, ids[1..])
    else if proposals[ids[0]].totalPoints < VOTING_POINTS then Err(PointsUnderflow)
    else
      var adjusted := proposals[ids[0]].(totalPoints := proposals[ids[0]].totalPoints - VOTING_POINTS);
      AdjustForLeaver(proposals[ids[0] := adjusted], ballots, leaver, ids[1..])
  }

  /** Takes the voting points of a voting member away. */
  function TakeVote(s: State, a: Addr): Result<State, Error> {
    if s.total < VOTING_POINTS then Err(TotalUnderflow)
    else Ok(s.(members := s.members[a := 0], total := s.total - VOTING_POINTS))
  }

  /** `escrow` is the leaver's entry, already slashed where the leave is a punishment. */
  function TriggerLongLeave(s: State, block: Block, leaver: Addr, escrow: EscrowStatus): Result<State, Error> {
    var claimAt := block.Seconds() + s.circle.rules.PeriodSeconds() * 2;
    var left := escrow.(status := Leaving(claimAt));
    if escrow.status != Voting then Ok(s.(escrows := s.escrows[leaver := left]))
    else
      match TakeVote(s, leaver)
      case Err(e) => Err(e)
      case Ok(taken) =>
        match AdjustForLeaver(s.proposals, s.ballots, leaver, OpenProposalIds(s.byExpiry, block.Seconds()))
        case Err(e) => Err(e)
        case Ok(proposals) => Ok(taken.(proposals := proposals, escrows := s.escrows[leaver := left]))
  }

  function Leave(s: State, block: Block, sender: Addr): Result<State, Error> {
    if sender !in s.escrows then Err(NotAMember)
    else
      var escrow := s.escrows[sender];
      if escrow.status.NonVoting? || (escrow.status.Pending? && escrow.paid == 0) then
        Ok(s.(members := s.members - {sender}, escrows := s.escrows - {sender}))
      else if escrow.status.Leaving? then Err(InvalidStatus)
      else TriggerLongLeave(s, block, sender, escrow)
  }

  // ---------------------------------------------------------------- pending changes

  function DemoteEach(s: State, id: nat, addrs: seq<Addr>): Result<State, Error>
    decreases |addrs|
  {
    if addrs == [] then Ok(s)
    else if addrs[0] !in s.escrows then Err(MissingEscrow)
    else
      var escrow := s.escrows[addrs[0]].(status := MemberStatus.Pending(id));
      match TakeVote(s.(escrows := s.escrows[addrs[0] := escrow]), addrs[0])
      case Err(e) => Err(e)
      case Ok(next) => DemoteEach(next, id, addrs[1..])
  }

  function PromoteEach(s: State, addrs: seq<Addr>): State
    decreases |addrs|
  {
    if addrs == [] || addrs[0] !in s.escrows || !s.escrows[addrs[0]].status.Pending? then s
    else
      var escrow := s.escrows[addrs[0]].(status := PendingPaid(s.escrows[addrs[0]].status.proposalId));
      PromoteEach(s.(escrows := s.escrows[addrs[0] := escrow]), addrs[1..])
  }

  /** The voting members below an escrow, in key order. */
  function BelowEscrowVoters(escrows: map<Addr, EscrowStatus>, amount: nat): seq<Addr> {
    Ascending(set a | a in escrows && escrows[a].status == Voting && escrows[a].paid < amount)
  }

  /** The pending members at or above an escrow, in key order. */
  function PaidPending(escrows: map<Addr, EscrowStatus>, amount: nat): seq<Addr> {
    Ascending(set a | a in escrows && escrows[a].status.Pending? && escrows[a].paid >= amount)
  }

  function DemotePromote(s: State, block: Block, id: nat, amount: nat, newAmount: nat): Result<State, Error> {
    if newAmount > amount then
      var demoted := BelowEscrowVoters(s.escrows, newAmount);
      match DemoteEach(s, id, demoted)
      case Err(e) => Err(e)
      case Ok(next) => CreateBatch(next, block, id, 0, demoted)
    else if newAmount < amount then Ok(PromoteEach(s, PaidPending(s.escrows, newAmount)))
    else Ok(s)
  }

  function CheckPendingEscrow(s: State, block: Block): Result<State, Error> {
    match s.circle.escrowPending
    case None => Ok(s)
    case Some(p) =>
      if block.Seconds() < p.graceEndsAt then Ok(s)
      else
        match DemotePromote(s, block, p.proposalId, s.circle.escrowAmount, p.amount)
        case Err(e) => Err(e)
        case Ok(next) => Ok(next.(circle := s.circle.(escrowAmount := p.amount, escrowPending := None)))
  }

  function ReadyBatches(batches: map<nat, Batch>, now: nat): seq<nat> {
    Ascending(set id | id in batches && batches[id].IsReady(now))
  }

  function ConvertBatches(s: State, ids: seq<nat>): Result<State, Error>
    decreases |ids|
  {
    if ids == [] then Ok(s)
    else if ids[0] !in s.batches then Err(MissingBatch)
    else
      match ConvertAllPaid(s, ids[0], s.batches[ids[0]])
      case Err(e) => Err(e)
      case Ok(next) => ConvertBatches(next, ids[1..])
  }

  function CheckAllPending(s: State, block: Block): Result<State, Error> {
    match CheckPendingEscrow(s, block)
    case Err(e) => Err(e)
    case Ok(next) => ConvertBatches(next, ReadyBatches(next.batches, block.Seconds()))
  }

  // ---------------------------------------------------------------- voting on proposals

  function ValidatePunishment(s: State, p: Punishment): Result<(), Error> {
    if p.DistributeEscrow? && p.recipients == [] then Err(EmptyDistributionList)
    else if p.slashing > ONE then Err(InvalidSlashingPercentage)
    else if p.member !in s.escrows then Err(MissingEscrow)
    else if s.escrows[p.member].status == NonVoting then Err(PunishInvalidMemberStatus)
    else Ok(())
  }

  function ValidatePunishments(s: State, ps: seq<Punishment>): Result<(), Error> {
    if ps == [] then Ok(())
    else if ValidatePunishment(s, ps[0]).Err? then ValidatePunishment(s, ps[0])
    else ValidatePunishments(s, ps[1..])
  }

  /** The proposal id that stands in while an edit is only being validated. */
  const DUMMY_PROPOSAL_ID: nat := 0xFFFF_FFFF_FFFF_FFFF

  /** New members have to be humans, all of them, and then not denied. */
  function ValidateAdded(addrs: seq<Addr>, others: Others): Result<(), Error> {
    if AnyIn(addrs, others.contracts) then Err(NotAHuman)
    else if AnyIn(addrs, others.denied) then Err(DeniedAddress)
    else Ok(())
  }

  function ValidateContent(s: State, block: Block, content: Content, others: Others): Result<(), Error> {
    match content
    case EditTrustedCircle(adj) =>
      if s.circle.editDisabled then Err(FrozenRules)
      else
        (match s.circle.ApplyAdjustments(block, DUMMY_PROPOSAL_ID, adj)
         case Err(e) => Err(e)
         case Ok(edited) => edited.Validate())
    case AddRemoveNonVotingMembers(remove, add) => 
      if add == [] && remove == [] then Err(NoMembers) else ValidateAdded(add, others)
    case AddVotingMembers(voters) => if voters == [] then Err(NoMembers) else ValidateAdded(voters, others)
    case PunishMembers(ps) => if ps == [] then Err(NoPunishments) else ValidatePunishments(s, ps)
    case WhitelistContract(a) => if a in others.contracts then Ok(()) else Err(NotAContract)
    case RemoveContract(a) => if a in others.contracts then Ok(()) else Err(NotAContract)
  }

  function CreateProposal(s: State, proposer: Addr, power: nat, p: Proposal): State {
    var id := s.proposalCount + 1;
    s.(proposals := s.proposals[id := p],
       proposalCount := id,
       byExpiry := s.byExpiry[p.expires / NANOS_PER_SECOND := id],
       ballots := s.ballots[(id, proposer) := Ballot(power, Yes)])
  }

  function ProposeContent(s: State, block: Block, sender: Addr, content: Content, others: Others)
    : Result<State, Error>
  {
    match (if block.height > 0 then CheckAllPending(s, block) else Ok(s))
    case Err(e) => Err(e)
    case Ok(checked) =>
      var power := if sender in checked.members then checked.members[sender] else 0;
      if power == 0 then Err(Unauthorized)
      else
        match ValidateContent(checked, block, content, others)
        case Err(e) => Err(e)
        case Ok(_) =>
          var rules := checked.circle.rules;
          var expires := block.time + rules.PeriodSeconds() * NANOS_PER_SECOND;
          var votes := NO_VOTES.AddVote(Yes, power);
          var draft := Proposal(block.height, expires, content, Open, rules, checked.total, votes);
          match draft.UpdateStatus(block)
          case Err(e) => Err(e)
          case Ok(p) => Ok(CreateProposal(checked, sender, power, p))
  }

  function VoteOn(s: State, block: Block, sender: Addr, id: nat, vote: Vote, power: nat): Result<State, Error> {
    if id !in s.proposals then Err(MissingProposal)
    else
      var p := s.proposals[id];
      if p.status !in {Open, Passed} then Err(NotOpen)
      else if p.IsExpired(block) then Err(Expired)
      else if power == 0 then Err(Unauthorized)
      else if sender !in s.escrows then Err(MissingEscrow)
      else if s.escrows[sender].status != Voting then Err(InvalidStatus)
      else if (id, sender) in s.ballots then Err(AlreadyVoted)
      else
        match p.(votes := p.votes.AddVote(vote, power)).UpdateStatus(block)
        case Err(e) => Err(e)
        case Ok(voted) =>
          Ok(s.(proposals := s.proposals[id := voted], ballots := s.ballots[(id, sender) := Ballot(power, vote)]))
  }

  function CloseProposal(s: State, block: Block, id: nat): Result<State, Error> {
    if id !in s.proposals then Err(MissingProposal)
    else
      var p := s.proposals[id];
      if p.status in {Executed, Rejected, Passed} then Err(WrongCloseStatus)
      else if !p.IsExpired(block) then Err(NotExpired)
      else Ok(s.(proposals := s.proposals[id := p.(status := Rejected)]))
  }

  // ---------------------------------------------------------------- executing proposals

  function AddNonVoting(s: State, addrs: seq<Addr>): State
    decreases |addrs|
  {
    if addrs == [] then s
    else if addrs[0] in s.members then AddNonVoting(s, addrs[1..])
    else
      AddNonVoting(s.(members := s.members[addrs[0] := 0],
                      escrows := s.escrows[addrs[0] := EscrowStatus(0, NonVoting)]), addrs[1..])
  }

  function RemoveNonVoting(s: State, addrs: seq<Addr>): Result<State, Error>
    decreases |addrs|
  {
    if addrs == [] then Ok(s)
    else if addrs[0] !in s.escrows then RemoveNonVoting(s, addrs[1..])
    else if s.escrows[addrs[0]].status != NonVoting then Err(VotingMember)
    else
      RemoveNonVoting(s.(members := s.members - {addrs[0]}, escrows := s.escrows - {addrs[0]}), addrs[1..])
  }

  /** The deny list is asked again when a proposal is executed. */
  function AddRemoveNonVoting(s: State, add: seq<Addr>, remove: seq<Addr>, denied: set<Addr>): Result<State, Error> {
    if AnyIn(add, denied) then Err(DeniedAddress) else RemoveNonVoting(AddNonVoting(s, add), remove)
  }

  /** Those who are not members yet, or not voting ones, become pending in this batch. */
  function AddPending(s: State, id: nat, addrs: seq<Addr>): State
    decreases |addrs|
  {
    if addrs == [] then s
    else if addrs[0] in s.escrows && s.escrows[addrs[0]].status != NonVoting then AddPending(s, id, addrs[1..])
    else
      AddPending(s.(members := s.members[addrs[0] := 0],
                    escrows := s.escrows[addrs[0] := EscrowStatus(0, MemberStatus.Pending(id))]), id, addrs[1..])
  }

  function AddVoting(s: State, block: Block, id: nat, voters: seq<Addr>, denied: set<Addr>): Result<State, Error> {
    if AnyIn(voters, denied) then Err(DeniedAddress)
    else
      match CreateBatch(s, block, id, s.circle.rules.PeriodSeconds(), voters)
      case Err(e) => Err(e)
      case Ok(next) => Ok(AddPending(next, id, voters))
  }

  /** What a slashing takes, what of it leaves the contract, and what stays with the member. */
  datatype Slash = Slash(payments: seq<Payment>, sent: nat, burned: nat, remaining: nat)

  /** The same amount to each recipient, in order. */
  function PayEach(recipients: seq<Addr>, each: nat): seq<Payment> {
    seq(|recipients|, i requires 0 <= i < |recipients| => Payment(recipients[i], each))
  }

  function SlashOf(paid: nat, p: Punishment): Result<Slash, Error> {
    var slashed := paid * p.slashing / ONE;
    if slashed > paid then Err(SlashUnderflow)
    else if slashed == 0 then Ok(Slash([], 0, 0, paid))
    else
      match p
      case BurnEscrow(_, _, _) => Ok(Slash([], 0, slashed, paid - slashed))
      case DistributeEscrow(_, _, recipients, _) =>
        if recipients == [] then Err(DivisionByZero)
        else
          var each := slashed / |recipients|;
          Ok(Slash(PayEach(recipients, each), each * |recipients|, 0, paid - slashed + slashed % |recipients|))
  }

  /** The ledger after a slashing. */
  function Charged(ledger: Ledger, slash: Slash): Ledger {
    ledger.(sent := ledger.sent + slash.sent,
            burned := ledger.burned + slash.burned,
            payments := ledger.payments + slash.payments)
  }

  /** Also tells whether the member was demoted into the proposal's batch. */
  function Punish(s: State, block: Block, id: nat, p: Punishment): Result<(State, bool), Error> {
    if p.member !in s.escrows then Err(MissingEscrow)
    else
      var escrow := s.escrows[p.member];
      if escrow.status == NonVoting then Err(PunishInvalidMemberStatus)
      else
        match SlashOf(escrow.paid, p)
        case Err(e) => Err(e)
        case Ok(slash) =>
          var slashed := s.(ledger := Charged(s.ledger, slash));
          var kept := escrow.(paid := slash.remaining);
          if p.kickOut then
            match TriggerLongLeave(slashed, block, p.member, kept)
            case Err(e) => Err(e)
            case Ok(next) => Ok((next, false))
          else if kept.paid < s.circle.GetEscrow() then
            var demoted := kept.(status := MemberStatus.Pending(id));
            match (if escrow.status == Voting then TakeVote(slashed, p.member) else Ok(slashed))
            case Err(e) => Err(e)
            case Ok(next) => Ok((next.(escrows := s.escrows[p.member := demoted]), true))
          else Ok((slashed.(escrows := s.escrows[p.member := kept]), false))
  }

  function PunishEach(s: State, block: Block, id: nat, ps: seq<Punishment>): Result<(State, seq<Addr>), Error>
    decreases |ps|
  {
    if ps == [] then Ok((s, []))
    else
      match Punish(s, block, id, ps[0])
      case Err(e) => Err(e)
      case Ok((next, demoted)) =>
        match PunishEach(next, block, id, ps[1..])
        case Err(e) => Err(e)
        case Ok((last, others)) => Ok((last, (if demoted then [ps[0].member] else []) + others))
  }

  function PunishAll(s: State, block: Block, id: nat, ps: seq<Punishment>): Result<State, Error> {
    match PunishEach(s, block, id, ps)
    case Err(e) => Err(e)
    case Ok((next, demoted)) => CreateBatch(next, block, id, 0, demoted)
  }

  function ExecuteContent(s: State, block: Block, id: nat, content: Content, denied: set<Addr>): Result<State, Error> {
    match content
    case AddRemoveNonVotingMembers(remove, add) => AddRemoveNonVoting(s, add, remove, denied)
    case EditTrustedCircle(adj) =>
      (match s.circle.ApplyAdjustments(block, id, adj)
       case Err(e) => Err(e)
       case Ok(circle) => Ok(s.(circle := circle)))
    case AddVotingMembers(voters) => AddVoting(s, block, id, voters, denied)
    case PunishMembers(ps) => PunishAll(s, block, id, ps)
    case WhitelistContract(a) => AddRemoveNonVoting(s, [a], [], denied)
    case RemoveContract(a) => AddRemoveNonVoting(s, [], [a], denied)
  }

  function ExecuteProposal(s: State, block: Block, id: nat, denied: set<Addr>): Result<State, Error> {
    if id !in s.proposals then Err(MissingProposal)
    else
      var p := s.proposals[id];
      if p.content.EditTrustedCircle? && s.circle.editDisabled then Err(FrozenRules)
      else if p.status != Passed then Err(WrongExecuteStatus)
      else ExecuteContent(s.(proposals := s.proposals[id := p.(status := Executed)]), block, id, p.content, denied)
  }

  // ---------------------------------------------------------------- transactions and runs

  function Handle(s: State, call: Call): Result<State, Error> {
    match call.message
    case DepositEscrow(amount) => Deposit(s, call.block, call.sender, amount)
    case ReturnEscrow => Return(s, call.block, call.sender)
    case Propose(content, others) => ProposeContent(s, call.block, call.sender, content, others)
    case CastVote(id, vote, power) => VoteOn(s, call.block, call.sender, id, vote, power)
    case Execute(id, others) => ExecuteProposal(s, call.block, id, others.denied)
    case Close(id) => CloseProposal(s, call.block, id)
    case LeaveTrustedCircle => Leave(s, call.block, call.sender)
    case CheckPending => CheckAllPending(s, call.block)
  }

  /** A failing message leaves everything as it was. */
  function Step(s: State, call: Call): State {
    match Handle(s, call)
    case Ok(next) => next
    case Err(_) => s
  }

  function Run(s: State, calls: seq<Call>): State
    decreases |calls|
  {
    if calls == [] then s else Run(Step(s, calls[0]), calls[1..])
  }

  datatype InstantiateMsg = InstantiateMsg(
    name: string,
    escrowAmount: nat,
    rules: Rules,
    editDisabled: bool,
    initialMembers: seq<Addr>)
  {
    function Circle(): TrustedCircle {
      TrustedCircle(name, escrowAmount, None, rules, editDisabled)
    }
  }

  /** The storage with a single, paid-up voting member. */
  function FirstState(sender: Addr, amount: nat, circle: TrustedCircle): State {
    State(circle, map[sender := VOTING_POINTS], map[sender := EscrowStatus(amount, Voting)], VOTING_POINTS,
          map[], map[], 0, map[], map[], Ledger(amount, 0, 0, 0, []))
  }

  /** The first member pays at least the escrow and votes at once; the others do not vote. */
  function Instantiate(sender: Addr, amount: nat, msg: InstantiateMsg, denied: set<Addr>): Result<State, Error> {
    match msg.Circle().Validate()
    case Err(e) => Err(e)
    case Ok(_) =>
      if amount == 0 then Err(InvalidPayment)
      else if amount < msg.Circle().GetEscrow() then Err(InsufficientFunds)
      else AddRemoveNonVoting(FirstState(sender, amount, msg.Circle()), msg.initialMembers, [], denied)
  }
}
