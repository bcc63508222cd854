/**
 The dispute multisig described a second time: when a message is accepted and what it leaves, option by
 option of the tally, and without the functions of `Multisig` and `Voting` that compute it.
 */
module MultisigReference {
  import opened Base
  import opened Sums
  import opened Voting
  import opened Multisig
  import opened MultisigProofs

  // ---------------------------------------------------------------- a new poll

  /** The last entry in the list for an address. */
  ghost predicate LastEntry(list: seq<Voter>, i: int) {
    0 <= i < |list| && forall j :: i < j < |list| ==> list[j].addr != list[i].addr
  }

  lemma {:induction false} TableHoldsLast(list: seq<Voter>, i: int)
    requires LastEntry(list, i)
    ensures list[i].addr in VoterTable(list) && VoterTable(list)[list[i].addr] == list[i].weight
    decreases |list|
  {
    var init := list[..|list| - 1];
    if i == |list| - 1 {
    } else {
      assert forall j :: 0 <= j < |init| ==> init[j] == list[j];
      TableHoldsLast(init, i);
    }
  }

  lemma {:induction false} TableNames(list: seq<Voter>, a: Addr) returns (i: nat)
    requires a in VoterTable(list)
    ensures i < |list| && list[i].addr == a
    decreases |list|
  {
    if list[|list| - 1].addr == a {
      i := |list| - 1;
    } else {
      i := TableNames(list[..|list| - 1], a);
    }
  }

  /** With no address named twice, the stored weights add up to the total weight. */
  lemma {:induction false} DistinctVotersMakeTotal(list: seq<Voter>)
    requires forall i, j :: 0 <= i < j < |list| ==> list[i].addr != list[j].addr
    ensures Sum(VoterTable(list)) == TotalWeight(list)
    decreases |list|
  {
    if list == [] {
    } else {
      var init, last := list[..|list| - 1], list[|list| - 1];
      DistinctVotersMakeTotal(init);
      if last.addr in VoterTable(init) {
        var i := TableNames(init, last.addr);
        assert false;
      }
      SumUpdate(VoterTable(init), last.addr, last.weight);
    }
  }

  predicate AcceptableThreshold(threshold: Threshold, total: nat) {
    match threshold
    case AbsoluteCount(weight) => 0 < weight <= total
    case AbsolutePercentage(percentage) => 2 * percentage >= ONE && percentage <= ONE
    case ThresholdQuorum(percentage, quorum) => 2 * percentage >= ONE && percentage <= ONE && 0 < quorum <= ONE
  }

  /** The time at which voting ends. */
  predicate EndsAfter(expires: Expiration, block: Block, period: Duration) {
    match period
    case Height(blocks) => expires == AtHeight(block.height + blocks)
    case Time(seconds) => expires == AtTime(block.time + seconds * 1_000_000_000)
  }

  /** A poll comes about from any list and a threshold that is acceptable for its weight: open, without
      ballots, and running for the period. */
  lemma InstantiationResult(block: Block, parent: Addr, list: seq<Voter>, threshold: Threshold, period: Duration,
                            complaintId: nat)
    ensures
      var r := Instantiate(block, parent, list, threshold, period, complaintId);
      && (r.Ok? <==> list != [] && AcceptableThreshold(threshold, TotalWeight(list)))
      && (r.Ok? ==>
            var s := r.value;
            && s.config.parent == parent && s.config.threshold == threshold && s.config.totalWeight == TotalWeight(list)
            && s.config.complaintId == complaintId && EndsAfter(s.config.expires, block, period)
            && s.votes == Votes(0, 0, 0, 0) && s.status == Open && s.ballots == map[] && s.decisions == 0
            && (forall i :: LastEntry(list, i) ==>
                  list[i].addr in s.voters && s.voters[list[i].addr] == list[i].weight)
            && (forall a :: a in s.voters ==> exists i :: 0 <= i < |list| && list[i].addr == a))
  {
    forall i | LastEntry(list, i)
      ensures list[i].addr in VoterTable(list) && VoterTable(list)[list[i].addr] == list[i].weight
    {
      TableHoldsLast(list, i);
    }
    forall a | a in VoterTable(list) ensures exists i :: 0 <= i < |list| && list[i].addr == a {
      var i := TableNames(list, a);
    }
  }

  // ---------------------------------------------------------------- every message

  predicate VotingOver(config: Config, block: Block) {
    match config.expires
    case AtHeight(height) => height <= block.height
    case AtTime(time) => time <= block.time
    case Never => false
  }

  /** The tally passes: see PassedIff for why this is what the source asks. */
  predicate Passes(config: Config, votes: Votes, over: bool)
    requires votes.abstain <= config.totalWeight
  {
    var cast := votes.yes + votes.no + votes.abstain + votes.veto;
    match config.threshold
    case AbsoluteCount(weight) => votes.yes >= weight
    case AbsolutePercentage(percentage) => Enough(votes.yes, config.totalWeight - votes.abstain, percentage)
    case ThresholdQuorum(percentage, quorum) =>
      && Enough(cast, config.totalWeight, quorum)
      && Enough(votes.yes, (if over then cast else config.totalWeight) - votes.abstain, percentage)
  }

  /** Enough No votes, and vetoes do not count as such. */
  predicate Fails(config: Config, votes: Votes, over: bool)
    requires votes.abstain <= config.totalWeight
  {
    var cast := votes.yes + votes.no + votes.abstain + votes.veto;
    match config.threshold
    case AbsoluteCount(weight) => votes.no > config.totalWeight - weight
    case AbsolutePercentage(percentage) =>
      votes.no > 0 && Enough(votes.no - 1, config.totalWeight - votes.abstain, ONE - percentage)
    case ThresholdQuorum(percentage, _) =>
      && votes.no > 0
      && Enough(votes.no - 1, (if over then cast else config.totalWeight) - votes.abstain, ONE - percentage)
  }

  /** The voter's weight is added to the option he chose, and to no other. */
  function WithVote(votes: Votes, vote: Vote, weight: nat): Votes {
    Votes(if vote == Yes then votes.yes + weight else votes.yes,
          if vote == No then votes.no + weight else votes.no,
          if vote == Abstain then votes.abstain + weight else votes.abstain,
          if vote == Veto then votes.veto + weight else votes.veto)
  }

  predicate VoteCast(s: Storage, block: Block, sender: Addr, vote: Vote, next: Storage) {
    && sender in s.voters && s.voters[sender] > 0 && sender !in s.ballots
    && s.status != Executed && s.status != Pending && !VotingOver(s.config, block)
    && var votes := WithVote(s.votes, vote, s.voters[sender]);
       && votes.abstain <= s.config.totalWeight
       && next == s.(votes := votes,
                     ballots := s.ballots[sender := Ballot(s.voters[sender], vote)],
                     status := if s.status != Open then s.status
                               else if Passes(s.config, votes, false) then Passed
                               else if Fails(s.config, votes, false) then Rejected
                               else Open)
  }

  /** Passed, as it is stored or as the tally has it now. */
  predicate Approved(s: Storage, block: Block) {
    && s.votes.abstain <= s.config.totalWeight
    && (s.status == Passed || (s.status == Open && Passes(s.config, s.votes, VotingOver(s.config, block))))
  }

  predicate Transition(s: Storage, call: Call, next: Storage) {
    match call.message
    case CastVote(vote) => VoteCast(s, call.block, call.sender, vote, next)
    case Execute => Approved(s, call.block) && next == s.(status := Executed, decisions := s.decisions + 1)
    case Close =>
      && s.status != Executed && s.status != Rejected && s.votes.abstain <= s.config.totalWeight
      && !Approved(s, call.block) && VotingOver(s.config, call.block) && next == s.(status := Rejected)
  }

  lemma PassesIff(config: Config, votes: Votes, over: bool)
    requires votes.abstain <= config.totalWeight
    ensures Passes(config, votes, over) <==> IsPassed(config.threshold, config.totalWeight, votes, over)
    ensures Fails(config, votes, over) <==> IsRejected(config.threshold, config.totalWeight, votes, over)
  {
    hide IsPassed, IsRejected, Enough;
    PassedIff(config.threshold, config.totalWeight, votes, over);
    RejectedIff(config.threshold, config.totalWeight, votes, over);
  }

  lemma AddVoteIs(votes: Votes, vote: Vote, weight: nat)
    ensures votes.AddVote(vote, weight) == WithVote(votes, vote, weight)
  {
  }

  /** A message is accepted and leaves `next` if and only if the reference has it so. */
  lemma HandleConforms(s: Storage, call: Call, next: Storage)
    ensures Handle(s, call) == Ok(next) <==> Transition(s, call, next)
  {
    hide IsPassed, IsRejected, Passes, Fails, Votes.AddVote, WithVote;
    var over := VotingOver(s.config, call.block);
    assert over == s.config.expires.IsExpired(call.block);
    if s.votes.abstain <= s.config.totalWeight {
      PassesIff(s.config, s.votes, over);
    }
    if call.message.CastVote? && call.sender in s.voters {
      AddVoteIs(s.votes, call.message.vote, s.voters[call.sender]);
      var votes := WithVote(s.votes, call.message.vote, s.voters[call.sender]);
      if votes.abstain <= s.config.totalWeight {
        PassesIff(s.config, votes, over);
      }
    }
  }

  /** A poll made at a time takes the votes of those named, with weight, exactly before that time and the
      period after it, to the nanosecond. */
  lemma NewPollTakesVotes(block: Block, parent: Addr, list: seq<Voter>, threshold: Threshold, seconds: nat,
                          complaintId: nat, later: Block, i: nat, vote: Vote)
    requires Instantiate(block, parent, list, threshold, Duration.Time(seconds), complaintId).Ok? && LastEntry(list, i)
    ensures
      var s := Instantiate(block, parent, list, threshold, Duration.Time(seconds), complaintId).value;
      Handle(s, Call(later, list[i].addr, CastVote(vote))).Ok? <==>
        list[i].weight > 0 && later.time < block.time + seconds * 1_000_000_000
  {
    hide Instantiate, Inv, HandleVote;
    var s := Instantiate(block, parent, list, threshold, Duration.Time(seconds), complaintId).value;
    InstantiationResult(block, parent, list, threshold, Duration.Time(seconds), complaintId);
    InstantiateEstablishesInv(block, parent, list, threshold, Duration.Time(seconds), complaintId);
    InvBallots(s, block);
    OpenPollTakes(s, later, list[i].addr, vote);
  }

  lemma OpenPollTakes(s: Storage, block: Block, sender: Addr, vote: Vote)
    requires BallotsSound(s) && s.status == Open && sender in s.voters && sender !in s.ballots
    ensures HandleVote(s, block, sender, vote).Ok? <==> s.voters[sender] > 0 && !VotingOver(s.config, block)
  {
    hide BallotsSound, CurrentStatus;
    VoteKeepsBallots(s, block, sender, vote);
  }

  /** A page lists the first voters after its start, with their weights: as many as are asked for, ten if
      nothing is asked, and never more than thirty. */
  lemma PageIs(voters: map<Addr, nat>, start: Option<Addr>, limit: Option<nat>)
    ensures
      var page := ListVoters(voters, start, limit);
      var most := if limit.None? then 10 else if limit.value < 30 then limit.value else 30;
      var keys := Ascending(KeysAfter(voters, start));
      && (forall a :: a in keys <==> a in voters && (start.Some? ==> start.value < a))
      && |page| == (if most < |keys| then most else |keys|)
      && forall i :: 0 <= i < |page| ==> keys[i] in voters && page[i] == Voter(keys[i], voters[keys[i]])
  {
    hide Ascending;
    var keys := Ascending(KeysAfter(voters, start));
    forall i | 0 <= i < |keys| ensures keys[i] in voters {
      assert keys[i] in keys;
    }
  }
}
