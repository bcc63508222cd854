/**
 What every run of the dispute multisig keeps, and what follows for its decision.
 */
module MultisigProofs {
  import opened Base
  import opened Sums
  import opened Voting
  import opened Multisig

  // ---------------------------------------------------------------- tallies and ballots

  /** The points of the ballots cast for one option. */
  function PointsFor(ballots: map<Addr, Ballot>, vote: Vote): map<Addr, int> {
    map a | a in ballots && ballots[a].vote == vote :: ballots[a].points
  }

  function AllPoints(ballots: map<Addr, Ballot>): map<Addr, int> {
    map a | a in ballots :: ballots[a].points
  }

  /** The tally agrees with the stored ballots, option by option. */
  ghost predicate TallyMatches(votes: Votes, ballots: map<Addr, Ballot>) {
    forall vote: Vote :: votes.For(vote) == Sum(PointsFor(ballots, vote))
  }

  lemma CastBallot(votes: Votes, ballots: map<Addr, Ballot>, a: Addr, ballot: Ballot)
    requires TallyMatches(votes, ballots) && a !in ballots
    ensures TallyMatches(votes.AddVote(ballot.vote, ballot.points), ballots[a := ballot])
  {
    var cast := ballots[a := ballot];
    forall vote: Vote
      ensures votes.AddVote(ballot.vote, ballot.points).For(vote) == Sum(PointsFor(cast, vote))
    {
      assert votes.For(vote) == Sum(PointsFor(ballots, vote));
      if vote == ballot.vote {
        assert PointsFor(cast, vote) == PointsFor(ballots, vote)[a := ballot.points];
        SumUpdate(PointsFor(ballots, vote), a, ballot.points);
      } else {
        assert PointsFor(cast, vote) == PointsFor(ballots, vote);
      }
    }
  }

  /** The total of the tally is the sum of all ballots. */
  lemma {:induction false} TallyTotal(votes: Votes, ballots: map<Addr, Ballot>)
    requires TallyMatches(votes, ballots)
    ensures votes.Total() == Sum(AllPoints(ballots))
    decreases |ballots|
  {
    var yes, no := PointsFor(ballots, Yes), PointsFor(ballots, No);
    var abstain, veto := PointsFor(ballots, Abstain), PointsFor(ballots, Veto);
    assert votes.yes == Sum(yes) by { assert votes.For(Yes) == votes.yes; }
    assert votes.no == Sum(no) by { assert votes.For(No) == votes.no; }
    assert votes.abstain == Sum(abstain) by { assert votes.For(Abstain) == votes.abstain; }
    assert votes.veto == Sum(veto) by { assert votes.For(Veto) == votes.veto; }
    SumOfOptions(ballots);
  }

  lemma {:induction false} SumOfOptions(ballots: map<Addr, Ballot>)
    ensures Sum(PointsFor(ballots, Yes)) + Sum(PointsFor(ballots, No))
         + Sum(PointsFor(ballots, Abstain)) + Sum(PointsFor(ballots, Veto)) == Sum(AllPoints(ballots))
    decreases |ballots|
  {
    if ballots.Keys == {} {
      NoBallots(ballots);
    } else {
      var a :| a in ballots.Keys;
      var rest := ballots - {a};
      assert rest.Keys == ballots.Keys - {a};
      SumOfOptions(rest);
      RemoveBallot(ballots, a, Yes);
      RemoveBallot(ballots, a, No);
      RemoveBallot(ballots, a, Abstain);
      RemoveBallot(ballots, a, Veto);
      RemovePoints(ballots, a);
    }
  }

  lemma NoBallots(ballots: map<Addr, Ballot>)
    requires ballots.Keys == {}
    ensures Sum(AllPoints(ballots)) == 0
    ensures forall vote: Vote :: Sum(PointsFor(ballots, vote)) == 0
  {
    assert AllPoints(ballots).Keys == {};
    forall vote: Vote ensures Sum(PointsFor(ballots, vote)) == 0 {
      assert PointsFor(ballots, vote).Keys == {};
    }
  }

  lemma RemovePoints(ballots: map<Addr, Ballot>, a: Addr)
    requires a in ballots
    ensures Sum(AllPoints(ballots)) == ballots[a].points + Sum(AllPoints(ballots - {a}))
  {
    SumRemove(AllPoints(ballots), a);
    assert AllPoints(ballots) - {a} == AllPoints(ballots - {a});
  }

  lemma RemoveBallot(ballots: map<Addr, Ballot>, a: Addr, vote: Vote)
    requires a in ballots
    ensures Sum(PointsFor(ballots, vote)) ==
      Sum(PointsFor(ballots - {a}, vote)) + (if ballots[a].vote == vote then ballots[a].points else 0)
  {
    if ballots[a].vote == vote {
      SumRemove(PointsFor(ballots, vote), a);
      assert PointsFor(ballots, vote) - {a} == PointsFor(ballots - {a}, vote);
    } else {
      assert PointsFor(ballots, vote) == PointsFor(ballots - {a}, vote);
    }
  }

  /** Duplicates in the list can only lower the stored weights below the total. */
  lemma {:induction false} TableWithinTotal(list: seq<Voter>)
    ensures Sum(VoterTable(list)) <= TotalWeight(list)
    decreases |list|
  {
    if list == [] {
    } else {
      var init, last := list[..|list| - 1], list[|list| - 1];
      TableWithinTotal(init);
      SumUpdate(VoterTable(init), last.addr, last.weight);
    }
  }

  // ---------------------------------------------------------------- the invariant

  /** Each ballot is that of a stored voter, with the voter's weight; the tally counts them. */
  ghost predicate BallotsSound(s: Storage) {
    && TallyMatches(s.votes, s.ballots)
    && (forall a :: a in s.ballots ==> a in s.voters && 0 < s.voters[a] == s.ballots[a].points)
    && Sum(s.voters) <= s.config.totalWeight
  }

  /** A verdict that no completion and no later block changes. */
  ghost predicate Settled(s: Storage, block: Block, verdict: Status)
    requires s.votes.abstain <= s.config.totalWeight
  {
    || OpenStatus(s.config.threshold, s.config.totalWeight, s.votes, false) == verdict
    || (s.config.expires.IsExpired(block)
        && OpenStatus(s.config.threshold, s.config.totalWeight, s.votes, true) == verdict)
  }

  /** Holds after every run whose last call was in `block`. */
  ghost predicate Inv(s: Storage, block: Block) {
    && BallotsSound(s)
    && Within(s.votes, s.config.totalWeight)
    && s.decisions == (if s.status == Executed then 1 else 0)
    && (match s.status
        case Open => true
        case Passed => Settled(s, block, Passed)
        case Rejected => Settled(s, block, Rejected)
        case Executed => Settled(s, block, Passed)
        case Pending => false)
  }

  /** The tally of sound ballots fits the total weight: no weight subtraction underflows. */
  lemma TallyWithinTotal(s: Storage)
    requires BallotsSound(s)
    ensures s.votes.Total() == Sum(AllPoints(s.ballots)) <= Sum(s.voters)
    ensures Within(s.votes, s.config.totalWeight)
  {
    TallyTotal(s.votes, s.ballots);
    SumMonotone(AllPoints(s.ballots), s.voters);
  }

  lemma SettledVerdict(s: Storage, block: Block, verdict: Status, later: Block)
    requires Within(s.votes, s.config.totalWeight)
    requires Settled(s, block, verdict) && verdict != Open && block.NotAfter(later)
    ensures Verdict(s.config, s.votes, later) == verdict
  {
    if OpenStatus(s.config.threshold, s.config.totalWeight, s.votes, false) == verdict {
      EarlyVerdictIsFinal(s.config.threshold, s.config.totalWeight, s.votes, s.votes,
          s.config.expires.IsExpired(later));
    }
  }

  /** The stored status agrees with recomputing it from scratch, now and at every later block. */
  lemma CachedStatusAgrees(s: Storage, block: Block, later: Block)
    requires Inv(s, block) && block.NotAfter(later)
    ensures s.status != Executed ==> CurrentStatus(s, later) == Verdict(s.config, s.votes, later)
    ensures s.status == Executed ==> Verdict(s.config, s.votes, later) == Passed
  {
    match s.status
    case Open =>
    case Passed => SettledVerdict(s, block, Passed, later);
    case Rejected => SettledVerdict(s, block, Rejected, later);
    case Executed => SettledVerdict(s, block, Passed, later);
  }

  lemma InstantiateEstablishesInv(block: Block, parent: Addr, list: seq<Voter>, threshold: Threshold,
                                  period: Duration, complaintId: nat)
    ensures
      var r := Instantiate(block, parent, list, threshold, period, complaintId);
      r.Ok? ==> Inv(r.value, block)
  {
    TableWithinTotal(list);
    forall vote: Vote ensures NO_VOTES.For(vote) == Sum(PointsFor(map[], vote)) {
      assert PointsFor(map[], vote) == map[];
    }
  }

  lemma VoteKeepsBallots(s: Storage, block: Block, sender: Addr, vote: Vote)
    requires BallotsSound(s)
    ensures
      var r := HandleVote(s, block, sender, vote);
      && r != Err(Overflow)
      && (r.Ok? ==> BallotsSound(r.value) && Completes(s.votes, r.value.votes, s.config.totalWeight))
  {
    if sender in s.voters && s.voters[sender] > 0 && sender !in s.ballots {
      var power := s.voters[sender];
      CastBallot(s.votes, s.ballots, sender, Ballot(power, vote));
      var voted := s.(ballots := s.ballots[sender := Ballot(power, vote)], votes := s.votes.AddVote(vote, power));
      TallyWithinTotal(voted);
    }
  }

  lemma HandleKeepsInv(s: Storage, block: Block, call: Call)
    requires Inv(s, block) && block.NotAfter(call.block)
    ensures Handle(s, call) != Err(Overflow)
    ensures Handle(s, call).Ok? ==> Inv(Handle(s, call).value, call.block)
    ensures Handle(s, call).Ok? ==> Handle(s, call).value.config == s.config && Handle(s, call).value.voters == s.voters
  {
    CachedStatusAgrees(s, block, call.block);
    match call.message
    case CastVote(vote) =>
      VoteKeepsBallots(s, call.block, call.sender, vote);
      var r := HandleVote(s, call.block, call.sender, vote);
      if r.Ok? && s.status != Open {
        EarlyVerdictIsFinal(s.config.threshold, s.config.totalWeight, s.votes, r.value.votes, false);
      }
    case Execute =>
    case Close =>
  }

  /** A status settled in one block stays settled in later ones. */
  lemma InvLater(s: Storage, block: Block, later: Block)
    requires Inv(s, block) && block.NotAfter(later)
    ensures Inv(s, later)
  {
  }

  lemma StepKeepsInv(s: Storage, block: Block, call: Call)
    requires Inv(s, block) && block.NotAfter(call.block)
    ensures Inv(Step(s, call), call.block)
    ensures Step(s, call).config == s.config && Step(s, call).voters == s.voters
  {
    HandleKeepsInv(s, block, call);
    InvLater(s, block, call.block);
  }

  lemma {:induction false} RunKeepsInv(s: Storage, block: Block, calls: seq<Call>)
    requires Inv(s, block) && Ordered(block, calls)
    ensures Inv(Run(s, calls), LastBlock(block, calls))
    ensures Run(s, calls).config == s.config && Run(s, calls).voters == s.voters
    decreases |calls|
  {
    if calls == [] {
    } else {
      StepKeepsInv(s, block, calls[0]);
      RunKeepsInv(Step(s, calls[0]), calls[0].block, calls[1..]);
    }
  }

  // ---------------------------------------------------------------- consequences over runs

  /** In every reachable state, at every later block, the stored status is what recomputation
      gives, and an executed poll is one whose recomputed verdict is Passed. */
  lemma ReachableStatusAgrees(block: Block, parent: Addr, list: seq<Voter>, threshold: Threshold, period: Duration,
                              complaintId: nat, calls: seq<Call>, later: Block)
    requires Instantiate(block, parent, list, threshold, period, complaintId).Ok?
    requires Ordered(block, calls) && LastBlock(block, calls).NotAfter(later)
    ensures
      var s := Run(Instantiate(block, parent, list, threshold, period, complaintId).value, calls);
      && Within(s.votes, s.config.totalWeight)
      && s.decisions <= 1
      && (if s.decisions == 0 then CurrentStatus(s, later) == Verdict(s.config, s.votes, later)
          else s.status == Executed && Verdict(s.config, s.votes, later) == Passed)
  {
    InstantiateEstablishesInv(block, parent, list, threshold, period, complaintId);
    var s0 := Instantiate(block, parent, list, threshold, period, complaintId).value;
    RunKeepsInv(s0, block, calls);
    CachedStatusAgrees(Run(s0, calls), LastBlock(block, calls), later);
  }

  /** Two runs from one state that collect the same ballots agree on the verdict at every later
      block, whatever the order of the votes and however often the status was stored. */
  lemma VerdictDependsOnBallots(s: Storage, block: Block, one: seq<Call>, other: seq<Call>, later: Block)
    requires Inv(s, block) && Ordered(block, one) && Ordered(block, other)
    requires LastBlock(block, one).NotAfter(later) && LastBlock(block, other).NotAfter(later)
    requires Run(s, one).ballots == Run(s, other).ballots
    ensures
      var s1, s2 := Run(s, one), Run(s, other);
      && s1.votes == s2.votes && s1.config == s2.config
      && s1.votes.abstain <= s1.config.totalWeight
      && (s1.decisions == s2.decisions == 0 ==> CurrentStatus(s1, later) == CurrentStatus(s2, later))
      && (s1.decisions != s2.decisions ==>
            CurrentStatus(if s1.decisions == 0 then s1 else s2, later) == Passed)
  {
    var s1, s2 := Run(s, one), Run(s, other);
    RunKeepsInv(s, block, one);
    RunKeepsInv(s, block, other);
    forall vote: Vote ensures s1.votes.For(vote) == s2.votes.For(vote) {
      assert s1.votes.For(vote) == Sum(PointsFor(s1.ballots, vote));
    }
    assert s1.votes.yes == s1.votes.For(Yes) == s2.votes.yes;
    assert s1.votes.no == s1.votes.For(No) == s2.votes.no;
    assert s1.votes.abstain == s1.votes.For(Abstain) == s2.votes.abstain;
    assert s1.votes.veto == s1.votes.For(Veto) == s2.votes.veto;
    CachedStatusAgrees(s1, LastBlock(block, one), later);
    CachedStatusAgrees(s2, LastBlock(block, other), later);
  }

  /** Only a vote changes the tally, and only by adding to it. */
  lemma StepAddsVotes(s: Storage, block: Block, call: Call)
    requires Inv(s, block) && block.NotAfter(call.block)
    ensures Completes(s.votes, Step(s, call).votes, s.config.totalWeight)
    ensures s.config.expires.IsExpired(call.block) ==> Step(s, call).votes == s.votes
    ensures s.config.expires.IsExpired(call.block) ==> Step(s, call).ballots == s.ballots
  {
    if call.message.CastVote? {
      VoteKeepsBallots(s, call.block, call.sender, call.message.vote);
    }
  }

  lemma {:induction false} RunAddsVotes(s: Storage, block: Block, calls: seq<Call>)
    requires Inv(s, block) && Ordered(block, calls)
    ensures Completes(s.votes, Run(s, calls).votes, s.config.totalWeight)
    ensures s.config.expires.IsExpired(block) ==> Run(s, calls).votes == s.votes
    decreases |calls|
  {
    if calls == [] {
    } else {
      StepKeepsInv(s, block, calls[0]);
      StepAddsVotes(s, block, calls[0]);
      RunAddsVotes(Step(s, calls[0]), calls[0].block, calls[1..]);
    }
  }

  /** Once the verdict is Passed or Rejected, no further run changes it. */
  lemma VerdictSurvivesRun(s: Storage, block: Block, calls: seq<Call>, later: Block)
    requires Inv(s, block) && Ordered(block, calls) && LastBlock(block, calls).NotAfter(later)
    requires Verdict(s.config, s.votes, block) != Open
    ensures
      var end := Run(s, calls);
      && end.votes.abstain <= end.config.totalWeight
      && Verdict(end.config, end.votes, later) == Verdict(s.config, s.votes, block)
  {
    RunKeepsInv(s, block, calls);
    RunAddsVotes(s, block, calls);
    OrderedLast(block, calls);
    if !s.config.expires.IsExpired(block) {
      EarlyVerdictIsFinal(s.config.threshold, s.config.totalWeight, s.votes, Run(s, calls).votes,
                          s.config.expires.IsExpired(later));
    }
  }

  /** A vote counts exactly for a stored voter of positive weight who has not voted, before expiry and
      before the decision; and then it is his own, with his weight. */
  lemma VoteSucceedsIff(s: Storage, block: Block, later: Block, sender: Addr, vote: Vote)
    requires Inv(s, block) && block.NotAfter(later)
    ensures
      var r := HandleVote(s, later, sender, vote);
      && (r.Ok? <==>
            && sender in s.voters && s.voters[sender] > 0 && sender !in s.ballots
            && s.decisions == 0 && !s.config.expires.IsExpired(later))
      && (r.Ok? ==>
            && r.value.ballots == s.ballots[sender := Ballot(s.voters[sender], vote)]
            && r.value.votes.For(vote) == s.votes.For(vote) + s.voters[sender]
            && r.value.votes.Total() == s.votes.Total() + s.voters[sender])
  {
    VoteKeepsBallots(s, later, sender, vote);
  }

  /** Execution succeeds exactly once, exactly when the recomputed verdict is Passed. */
  lemma ExecuteIff(s: Storage, block: Block, later: Block)
    requires Inv(s, block) && block.NotAfter(later)
    ensures HandleExecute(s, later).Ok? <==> s.decisions == 0 && Verdict(s.config, s.votes, later) == Passed
  {
    CachedStatusAgrees(s, block, later);
  }

  /** Closing succeeds exactly for a poll stored as open that ran out without passing. */
  lemma CloseIff(s: Storage, block: Block, later: Block)
    requires Inv(s, block) && block.NotAfter(later)
    ensures HandleClose(s, later).Ok? <==>
      s.status == Open && s.config.expires.IsExpired(later) && Verdict(s.config, s.votes, later) == Rejected
  {
    CachedStatusAgrees(s, block, later);
  }

  // ---------------------------------------------------------------- can a decision be rendered at all?

  /** Every stored voter says yes. */
  ghost function Unanimous(s: Storage): Votes {
    var total := Sum(s.voters);
    Votes(if total >= 0 then total else 0, 0, 0, 0)
  }

  /** The poll can still lead to a decision: all yes is enough, and either voting is still
      possible or the empty tally already is. */
  ghost predicate Decidable(s: Storage, block: Block) {
    || IsPassed(s.config.threshold, s.config.totalWeight, NO_VOTES, true)
    || (!s.config.expires.IsExpired(block)
        && IsPassed(s.config.threshold, s.config.totalWeight, Unanimous(s), true))
  }

  /** If any tally of the stored voters passes, then the unanimous one does at expiry. */
  lemma UnanimousIsBest(rule: Threshold, total: nat, votes: Votes, power: nat, expired: bool)
    requires rule.Valid(total) && votes.Total() <= power <= total
    requires IsPassed(rule, total, votes, expired)
    ensures IsPassed(rule, total, Votes(power, 0, 0, 0), true)
  {
    match rule
    case AbsoluteCount(_) =>
    case AbsolutePercentage(p) =>
      NeedGrowsSlowly(total - votes.abstain, total, p);
    case ThresholdQuorum(t, _) =>
      VotesNeededAtMostWeight(power, t);
  }

  /** Without a ballot the early verdict is never better than the one at expiry. */
  lemma EmptyTallyPasses(rule: Threshold, total: nat, expired: bool)
    requires rule.Valid(total)
    requires IsPassed(rule, total, NO_VOTES, expired)
    ensures IsPassed(rule, total, NO_VOTES, true)
  {
    if !expired {
      PassedSurvives(rule, total, NO_VOTES, NO_VOTES, true);
    }
  }

  /** The calls by which each of `addrs` votes yes in `block`. */
  function YesCalls(addrs: seq<Addr>, block: Block): seq<Call> {
    seq(|addrs|, i requires 0 <= i < |addrs| => Call(block, addrs[i], CastVote(Yes)))
  }

  lemma YesCallsSplit(addrs: seq<Addr>, block: Block)
    requires addrs != []
    ensures YesCalls(addrs, block) == [Call(block, addrs[0], CastVote(Yes))] + YesCalls(addrs[1..], block)
  {
  }

  lemma {:induction false} YesCallsOrdered(addrs: seq<Addr>, block: Block)
    ensures Ordered(block, YesCalls(addrs, block))
    ensures LastBlock(block, YesCalls(addrs, block)) == block
    decreases |addrs|
  {
    if addrs == [] {
    } else {
      YesCallsOrdered(addrs[1..], block);
      YesCallsSplit(addrs, block);
      assert YesCalls(addrs, block)[1..] == YesCalls(addrs[1..], block);
    }
  }

  /** Distinct voters of positive weight who have not voted yet. */
  ghost predicate MayVote(s: Storage, addrs: seq<Addr>) {
    && (forall i, j :: 0 <= i < j < |addrs| ==> addrs[i] != addrs[j])
    && (forall i :: 0 <= i < |addrs| ==> addrs[i] in s.voters && s.voters[addrs[i]] > 0 && addrs[i] !in s.ballots)
  }

  /** Voters voting yes one after the other are all counted. */
  lemma {:induction false} YesCallsCount(s: Storage, block: Block, addrs: seq<Addr>)
    requires Inv(s, block) && s.status != Executed && !s.config.expires.IsExpired(block) && MayVote(s, addrs)
    ensures
      var end := Run(s, YesCalls(addrs, block));
      && end.ballots.Keys == s.ballots.Keys + (set a | a in addrs)
      && end.votes.no == s.votes.no && end.votes.abstain == s.votes.abstain && end.votes.veto == s.votes.veto
      && end.status != Executed
    decreases |addrs|
  {
    if addrs == [] {
      assert YesCalls(addrs, block) == [];
    } else {
      hide Inv, Step, YesCalls;
      var call := Call(block, addrs[0], CastVote(Yes));
      YesCallCounts(s, block, addrs[0]);
      YesCallsSplit(addrs, block);
      RunSplit(s, call, YesCalls(addrs[1..], block));
      YesCallsCount(Step(s, call), block, addrs[1..]);
      assert (set a | a in addrs) == {addrs[0]} + (set a | a in addrs[1..]);
    }
  }

  lemma RunSplit(s: Storage, call: Call, calls: seq<Call>)
    ensures Run(s, [call] + calls) == Run(Step(s, call), calls)
  {
    assert ([call] + calls)[1..] == calls;
  }

  lemma YesCallCounts(s: Storage, block: Block, a: Addr)
    requires Inv(s, block) && s.status != Executed && !s.config.expires.IsExpired(block)
    requires a in s.voters && s.voters[a] > 0 && a !in s.ballots
    ensures
      var next := Step(s, Call(block, a, CastVote(Yes)));
      && next.ballots.Keys == s.ballots.Keys + {a}
      && next.votes == s.votes.AddVote(Yes, s.voters[a])
      && next.status != Executed && next.voters == s.voters && next.config == s.config
      && Inv(next, block)
  {
    StepKeepsInv(s, block, Call(block, a, CastVote(Yes)));
    VoteKeepsBallots(s, block, a, Yes);
    assert Handle(s, Call(block, a, CastVote(Yes))) == HandleVote(s, block, a, Yes);
  }

  /** A block at which voting is over. */
  ghost function AfterExpiry(s: Storage, block: Block): (later: Block)
    requires s.config.expires != Never
    ensures block.NotAfter(later) && s.config.expires.IsExpired(later)
  {
    match s.config.expires
    case AtHeight(h) => Block(if h > block.height then h else block.height, block.time)
    case AtTime(t) => Block(block.height, if t > block.time then t else block.time)
  }

  lemma {:induction false} RunConcat(s: Storage, one: seq<Call>, two: seq<Call>)
    ensures Run(s, one + two) == Run(Run(s, one), two)
    decreases |one|
  {
    if one == [] {
      assert one + two == two;
    } else {
      assert (one + two)[1..] == one[1..] + two;
      RunConcat(Step(s, one[0]), one[1..], two);
    }
  }

  /** The voters who may vote, with their weights. */
  function Electorate(voters: map<Addr, nat>): map<Addr, int> {
    map a | a in voters && voters[a] > 0 :: voters[a]
  }

  /** From a fresh poll, all voting yes gives the unanimous tally. */
  lemma UnanimousRun(s: Storage, block: Block) returns (calls: seq<Call>)
    requires Inv(s, block) && s.ballots == map[] && s.status != Executed && !s.config.expires.IsExpired(block)
    ensures Ordered(block, calls) && LastBlock(block, calls) == block
    ensures Run(s, calls).votes == Unanimous(s) && Run(s, calls).status != Executed
  {
    hide Inv, Step, YesCalls, Electorate, Unanimous, BallotsSound;
    var addrs := Electors(s);
    calls := YesCalls(addrs, block);
    YesCallsOrdered(addrs, block);
    YesCallsCount(s, block, addrs);
    InvBallots(s, block);
    FreshTally(s);
    RunKeepsInv(s, block, calls);
    InvBallots(Run(s, calls), block);
    UnanimousTally(Run(s, calls), s.voters);
    assert Unanimous(Run(s, calls)) == Unanimous(s) by {
      SameVotersSameUnanimity(s, Run(s, calls));
    }
  }

  lemma SameVotersSameUnanimity(s: Storage, t: Storage)
    requires s.voters == t.voters
    ensures Unanimous(s) == Unanimous(t)
  {
  }

  lemma InvBallots(s: Storage, block: Block)
    requires Inv(s, block)
    ensures BallotsSound(s)
  {
  }

  lemma Electors(s: Storage) returns (addrs: seq<Addr>)
    requires s.ballots == map[]
    ensures MayVote(s, addrs) && (set a | a in addrs) == Electorate(s.voters).Keys
  {
    addrs := Ascending(Electorate(s.voters).Keys);
    forall i | 0 <= i < |addrs| ensures addrs[i] in Electorate(s.voters).Keys {
      assert addrs[i] in addrs;
    }
  }

  lemma UnanimousTally(end: Storage, voters: map<Addr, nat>)
    requires BallotsSound(end) && end.voters == voters
    requires end.ballots.Keys == Electorate(voters).Keys
    requires end.votes.no == end.votes.abstain == end.votes.veto == 0
    ensures end.votes == Unanimous(end)
  {
    TallyWithinTotal(end);
    AllVoted(end);
    ElectorateSum(voters);
  }

  lemma AllVoted(end: Storage)
    requires BallotsSound(end) && end.ballots.Keys == Electorate(end.voters).Keys
    ensures AllPoints(end.ballots) == Electorate(end.voters)
  {
    forall a | a in end.ballots
      ensures AllPoints(end.ballots)[a] == Electorate(end.voters)[a]
    {
    }
  }

  lemma ElectorateSum(voters: map<Addr, nat>)
    ensures Sum(Electorate(voters)) == Sum(voters)
  {
    SumPadded(Electorate(voters), voters);
  }

  lemma FreshTally(s: Storage)
    requires BallotsSound(s) && s.ballots == map[]
    ensures s.votes == NO_VOTES
  {
    TallyWithinTotal(s);
    NoBallots(s.ballots);
  }

  /** An executed poll has a tally, within the stored weights, that passes. */
  lemma ExecutedTallyPasses(s: Storage, block: Block)
    requires Inv(s, block) && s.status == Executed
    ensures IsPassed(s.config.threshold, s.config.totalWeight, s.votes, s.config.expires.IsExpired(block))
    ensures s.votes.Total() <= Sum(s.voters) <= s.config.totalWeight
  {
    CachedStatusAgrees(s, block, block);
    TallyWithinTotal(s);
  }

  /** Soundness: a decision was rendered only if the poll was decidable from the start. */
  lemma DecisionNeedsDecidable(s: Storage, block: Block, calls: seq<Call>)
    requires Inv(s, block) && s.ballots == map[] && s.decisions == 0 && Ordered(block, calls)
    requires Run(s, calls).decisions > 0
    ensures Decidable(s, block)
  {
    hide VotesNeeded, Run, Sum;
    var end, last := Run(s, calls), LastBlock(block, calls);
    RunKeepsInv(s, block, calls);
    ExecutedTallyPasses(end, last);
    var rule, total, expired := s.config.threshold, s.config.totalWeight, s.config.expires.IsExpired(last);
    if s.config.expires.IsExpired(block) {
      RunAddsVotes(s, block, calls);
      FreshTally(s);
      EmptyTallyPasses(rule, total, expired);
    } else {
      UnanimousIsBest(rule, total, end.votes, Sum(s.voters), expired);
    }
  }

  lemma ExecuteDecides(s: Storage, block: Block, later: Block)
    requires Inv(s, block) && s.status != Executed && block.NotAfter(later)
    requires s.config.expires.IsExpired(later)
    requires IsPassed(s.config.threshold, s.config.totalWeight, s.votes, true)
    ensures Run(s, [Call(later, 0, Execute)]).decisions == 1
  {
    var call := Call(later, 0, Execute);
    ExecuteIff(s, block, later);
    assert [call][1..] == [];
    assert Run(s, [call]) == Step(s, call);
  }

  /** A run of votes in `block` that gives a passing tally can be completed to a decision. */
  lemma ThenExecute(s: Storage, block: Block, votes: seq<Call>) returns (calls: seq<Call>)
    requires Inv(s, block) && Ordered(block, votes) && LastBlock(block, votes) == block
    requires s.config.expires != Never && Run(s, votes).status != Executed
    requires Within(Run(s, votes).votes, s.config.totalWeight)
    requires IsPassed(s.config.threshold, s.config.totalWeight, Run(s, votes).votes, true)
    ensures Ordered(block, calls) && Run(s, calls).decisions == 1
  {
    RunKeepsInv(s, block, votes);
    var later := AfterExpiry(s, block);
    ExecuteDecides(Run(s, votes), block, later);
    calls := votes + [Call(later, 0, Execute)];
    RunConcat(s, votes, [Call(later, 0, Execute)]);
    OrderedConcat(block, votes, [Call(later, 0, Execute)]);
  }

  lemma UnanimityDecides(s: Storage, block: Block) returns (calls: seq<Call>)
    requires Inv(s, block) && s.ballots == map[] && s.status == Open && s.config.expires != Never
    requires !s.config.expires.IsExpired(block)
    requires IsPassed(s.config.threshold, s.config.totalWeight, Unanimous(s), true)
    ensures Ordered(block, calls) && Run(s, calls).decisions == 1
  {
    var votes := UnanimousRun(s, block);
    RunKeepsInv(s, block, votes);
    calls := ThenExecute(s, block, votes);
  }

  lemma SilenceDecides(s: Storage, block: Block) returns (calls: seq<Call>)
    requires Inv(s, block) && s.ballots == map[] && s.status == Open && s.config.expires != Never
    requires IsPassed(s.config.threshold, s.config.totalWeight, NO_VOTES, true)
    ensures Ordered(block, calls) && Run(s, calls).decisions == 1
  {
    FreshTally(s);
    calls := ThenExecute(s, block, []);
  }

  /** Completeness: a decidable fresh poll has a run that renders a decision. */
  lemma DecidableGivesDecision(s: Storage, block: Block) returns (calls: seq<Call>)
    requires Inv(s, block) && s.ballots == map[] && s.status == Open && s.config.expires != Never
    requires Decidable(s, block)
    ensures Ordered(block, calls) && Run(s, calls).decisions == 1
  {
    if IsPassed(s.config.threshold, s.config.totalWeight, NO_VOTES, true) {
      calls := SilenceDecides(s, block);
    } else {
      calls := UnanimityDecides(s, block);
    }
  }
}
