/**
 The dispute multisig: one poll among a fixed list of weighted voters.

 `Storage` is what the contract keeps; `Handle` is one message, and `Step` the transaction
 around it, which keeps the old storage when the message fails.
 */
module Multisig {
  import opened Base
  import opened Sums
  import opened Voting

  datatype Error =
    | NoVoters
    | InvalidThreshold
    | Unauthorized
    | NotOpen
    | Expired
    | AlreadyVoted
    | WrongExecuteStatus
    | WrongCloseStatus
    | NotExpired
    | Overflow

  datatype Voter = Voter(addr: Addr, weight: nat)

  datatype RawConfig = Config(
    parent: Addr,
    threshold: Threshold,
    totalWeight: nat,
    expires: Expiration,
    complaintId: nat)

  /** Instantiation stores only a threshold that is valid for the total weight. */
  type Config = c: RawConfig | c.threshold.Valid(c.totalWeight)
    witness RawConfig.Config(0, AbsoluteCount(1), 1, Never, 0)

  /** `decisions` counts the RenderDecision messages sent to the parent. */
  datatype Storage = Storage(
    config: Config,
    votes: Votes,
    status: Status,
    ballots: map<Addr, Ballot>,
    voters: map<Addr, nat>,
    decisions: nat)

  datatype Message = CastVote(vote: Vote) | Execute | Close

  type Call = Transaction<Message>

  // ---------------------------------------------------------------- operations

  function TotalWeight(list: seq<Voter>): nat {
    if list == [] then 0 else TotalWeight(list[..|list| - 1]) + list[|list| - 1].weight
  }

  /** The stored voters: a later entry for the same address replaces the earlier one. */
  function VoterTable(list: seq<Voter>): map<Addr, nat> {
    if list == [] then map[]
    else var last := list[|list| - 1]; VoterTable(list[..|list| - 1])[last.addr := last.weight]
  }

  function Instantiate(block: Block, parent: Addr, list: seq<Voter>, threshold: Threshold, period: Duration,
                       complaintId: nat): Result<Storage, Error> {
    if list == [] then Err(NoVoters)
    else
      var total := TotalWeight(list);
      if !threshold.Valid(total) then Err(InvalidThreshold)
      else
        var config: Config := RawConfig.Config(parent, threshold, total, period.After(block), complaintId);
        Ok(Storage(config, NO_VOTES, Open, map[], VoterTable(list), 0))
  }

  /** What the status would be if none had been stored: a function of tally and block alone. */
  function Verdict(config: Config, votes: Votes, block: Block): Status
    requires votes.abstain <= config.totalWeight
  {
    OpenStatus(config.threshold, config.totalWeight, votes, config.expires.IsExpired(block))
  }

  /** The status at a block, starting from the stored one. */
  function CurrentStatus(s: Storage, block: Block): Status
    requires s.votes.abstain <= s.config.totalWeight
  {
    if s.status == Open then Verdict(s.config, s.votes, block) else s.status
  }

  function HandleVote(s: Storage, block: Block, sender: Addr, vote: Vote): Result<Storage, Error> {
    if sender !in s.voters || s.voters[sender] == 0 then Err(Unauthorized)
    else if s.status !in {Open, Passed, Rejected} then Err(NotOpen)
    else if s.config.expires.IsExpired(block) then Err(Expired)
    else if sender in s.ballots then Err(AlreadyVoted)
    else
      var power := s.voters[sender];
      var voted := s.(ballots := s.ballots[sender := Ballot(power, vote)], votes := s.votes.AddVote(vote, power));
      if voted.votes.abstain > s.config.totalWeight then Err(Overflow)
      else Ok(voted.(status := CurrentStatus(voted, block)))
  }

  function HandleExecute(s: Storage, block: Block): Result<Storage, Error> {
    if s.votes.abstain > s.config.totalWeight then Err(Overflow)
    else if CurrentStatus(s, block) != Passed then Err(WrongExecuteStatus)
    else Ok(s.(status := Executed, decisions := s.decisions + 1))
  }

  function HandleClose(s: Storage, block: Block): Result<Storage, Error> {
    if s.status in {Executed, Rejected, Passed} then Err(WrongCloseStatus)
    else if s.votes.abstain > s.config.totalWeight then Err(Overflow)
    else if CurrentStatus(s, block) == Passed then Err(WrongCloseStatus)
    else if !s.config.expires.IsExpired(block) then Err(NotExpired)
    else Ok(s.(status := Rejected))
  }

  function Handle(s: Storage, call: Call): Result<Storage, Error> {
    match call.message
    case CastVote(vote) => HandleVote(s, call.block, call.sender, vote)
    case Execute => HandleExecute(s, call.block)
    case Close => HandleClose(s, call.block)
  }

  function Step(s: Storage, call: Call): Storage {
    match Handle(s, call)
    case Ok(next) => next
    case Err(_) => s
  }

  /** The storage after a run of calls. */
  function Run(s: Storage, calls: seq<Call>): Storage
    decreases |calls|
  {
    if calls == [] then s else Run(Step(s, calls[0]), calls[1..])
  }

  function KeysAfter(voters: map<Addr, nat>, start: Option<Addr>): set<Addr> {
    set a | a in voters && (start.None? || start.value < a)
  }

  /** The first `limit` voters after an address, in ascending order of address. */
  function ListVoters(voters: map<Addr, nat>, startAfter: Option<Addr>, limit: Option<nat>): seq<Voter> {
    var wanted := match limit case None => DEFAULT_LIMIT case Some(n) => n;
    var count := if wanted < MAX_LIMIT then wanted else MAX_LIMIT;
    var keys := Ascending(KeysAfter(voters, startAfter));
    seq(if count < |keys| then count else |keys|, i requires 0 <= i < |keys| =>
      assert keys[i] in keys; Voter(keys[i], voters[keys[i]]))
  }

  const MAX_LIMIT: nat := 30
  const DEFAULT_LIMIT: nat := 10

  // ---------------------------------------------------------------- the contract

  class DisputeMultisig {
    var config: Config
    var votes: Votes
    var status: Status
    var ballots: map<Addr, Ballot>
    var voters: map<Addr, nat>
    ghost var decisions: nat

    ghost function State(): Storage
      reads this
    {
      Storage(config, votes, status, ballots, voters, decisions)
    }

    constructor (block: Block, parent: Addr, list: seq<Voter>, threshold: Threshold, period: Duration, complaintId: nat)
      requires list != [] && threshold.Valid(TotalWeight(list))
      ensures Instantiate(block, parent, list, threshold, period, complaintId) == Ok(State())
    {
      config := RawConfig.Config(parent, threshold, TotalWeight(list), period.After(block), complaintId);
      votes, status, ballots, decisions := NO_VOTES, Open, map[], 0;
      voters := map[];
      new;
      for i := 0 to |list|
        invariant voters == VoterTable(list[..i])
        invariant config == RawConfig.Config(parent, threshold, TotalWeight(list), period.After(block), complaintId)
        invariant votes == NO_VOTES && status == Open && ballots == map[] && decisions == 0
      {
        assert list[..i + 1][..i] == list[..i];
        voters := voters[list[i].addr := list[i].weight];
      }
      assert list[..|list|] == list;
    }

    /** The instantiate entry point: no contract comes about from an invalid message. */
    static method Create(block: Block, parent: Addr, list: seq<Voter>, threshold: Threshold, period: Duration,
                         complaintId: nat) returns (r: Result<DisputeMultisig, Error>)
      ensures match Instantiate(block, parent, list, threshold, period, complaintId)
              case Ok(s) => r.Ok? && fresh(r.value) && r.value.State() == s
              case Err(e) => r == Err(e)
    {
      if list == [] {
        return Err(NoVoters);
      }
      if !threshold.Valid(TotalWeight(list)) {
        return Err(InvalidThreshold);
      }
      var contract := new DisputeMultisig(block, parent, list, threshold, period, complaintId);
      return Ok(contract);
    }

    method UpdateStatus(block: Block)
      requires votes.abstain <= config.totalWeight
      modifies `status
      ensures status == CurrentStatus(old(State()), block)
    {
      if status == Open {
        status := Verdict(config, votes, block);
      }
    }

    method ExecuteVote(block: Block, sender: Addr, vote: Vote) returns (r: Result<(), Error>)
      modifies `votes, `status, `ballots
      ensures match HandleVote(old(State()), block, sender, vote)
              case Ok(next) => r.Ok? && State() == next
              case Err(e) => r == Err(e)
    {
      if sender !in voters || voters[sender] == 0 {
        return Err(Unauthorized);
      }
      if status !in {Open, Passed, Rejected} {
        return Err(NotOpen);
      }
      if config.expires.IsExpired(block) {
        return Err(Expired);
      }
      if sender in ballots {
        return Err(AlreadyVoted);
      }
      var power := voters[sender];
      ballots := ballots[sender := Ballot(power, vote)];
      votes := votes.AddVote(vote, power);
      if votes.abstain > config.totalWeight {
        return Err(Overflow);
      }
      UpdateStatus(block);
      return Ok(());
    }

    method ExecuteExecute(block: Block) returns (r: Result<(), Error>)
      modifies `status, `decisions
      ensures match HandleExecute(old(State()), block)
              case Ok(next) => r.Ok? && State() == next
              case Err(e) => r == Err(e)
    {
      if votes.abstain > config.totalWeight {
        return Err(Overflow);
      }
      UpdateStatus(block);
      if status != Passed {
        return Err(WrongExecuteStatus);
      }
      status := Executed;
      decisions := decisions + 1;
      return Ok(());
    }

    method ExecuteClose(block: Block) returns (r: Result<(), Error>)
      modifies `status
      ensures match HandleClose(old(State()), block)
              case Ok(next) => r.Ok? && State() == next
              case Err(e) => r == Err(e)
    {
      if status in {Executed, Rejected, Passed} {
        return Err(WrongCloseStatus);
      }
      if votes.abstain > config.totalWeight {
        return Err(Overflow);
      }
      if status == Open && Verdict(config, votes, block) == Passed {
        return Err(WrongCloseStatus);
      }
      if !config.expires.IsExpired(block) {
        return Err(NotExpired);
      }
      status := Rejected;
      return Ok(());
    }

    /** One transaction: a failing message leaves the storage as it was. */
    method Transact(call: Call) returns (r: Result<(), Error>)
      modifies this
      ensures State() == Step(old(State()), call)
      ensures r.Ok? <==> Handle(old(State()), call).Ok?
    {
      var votesBefore, statusBefore, ballotsBefore := votes, status, ballots;
      ghost var decisionsBefore := decisions;
      match call.message {
        case CastVote(vote) => r := ExecuteVote(call.block, call.sender, vote);
        case Execute => r := ExecuteExecute(call.block);
        case Close => r := ExecuteClose(call.block);
      }
      if r.Err? {
        votes, status, ballots := votesBefore, statusBefore, ballotsBefore;
        decisions := decisionsBefore;
      }
    }
  }
}
