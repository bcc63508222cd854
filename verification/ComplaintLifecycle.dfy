/**
 What the arbiter pool's invariant means: it stays solvent, complaints only move forward, each
 pays once and to the right accounts, and when its arbiters can decide a complaint at all.
 */
module ComplaintLifecycle {
  import opened Base
  import opened Sums
  import opened Voting
  import M = Multisig
  import MP = MultisigProofs
  import opened Complaints
  import opened ComplaintProofs

  // ---------------------------------------------------------------- solvency

  /** What the pool may still have to pay for a complaint. */
  function Owed(state: ComplaintState, cost: nat): nat {
    match state
    case Initiated(_) => cost
    case Aborted => cost
    case Waiting(_) => 2 * cost
    case Accepted => 2 * cost
    case Processing(_) => 2 * cost
    case Withdrawn(_) => 0
    case Closed(_, _) => 0
  }

  ghost function Obligations(w: World, now: Block): map<nat, int> {
    map id | id in w.complaints :: Owed(w.complaints[id].CurrentState(now), w.config.disputeCost)
  }

  lemma OwedIsHeld(c: Complaint, account: Account, cost: nat, now: Block)
    requires AccountFits(c, account, cost)
    ensures Owed(c.CurrentState(now), cost) <= HeldFor(account)
  {
    HeldNonNegative(c, account, cost);
    if account.sent == [] {
      HeldUntouched(account);
    }
  }

  /** Whatever the clock says, the pool holds what it owes on all complaints together. */
  lemma Solvent(w: World, block: Block, now: Block)
    requires Inv(w, block)
    ensures w.donated + Sum(Obligations(w, now)) <= w.balance
  {
    hide AccountFits, HeldFor, Owed, PollsFit, HandedOver, Sum;
    var owed, held := Obligations(w, now), Held(w.accounts);
    forall id | id in held ensures id in owed && owed[id] <= held[id] && 0 <= owed[id] {
      OwedIsHeld(w.complaints[id], w.accounts[id], w.config.disputeCost, now);
    }
    SumMonotone(owed, held);
  }

  /** The pool is solvent after every run. */
  lemma ReachableSolvent(self: Addr, disputeCost: nat, waitingPeriod: nat, block: Block, calls: seq<Call>, now: Block)
    requires Ordered(block, calls)
    ensures
      var w := Run(Start(self, disputeCost, waitingPeriod), calls);
      w.donated + Sum(Obligations(w, now)) <= w.balance
  {
    StartKeeps(self, disputeCost, waitingPeriod, block);
    RunKeeps(Start(self, disputeCost, waitingPeriod), block, calls);
    Solvent(Run(Start(self, disputeCost, waitingPeriod), calls), LastBlock(block, calls), now);
  }

  // ---------------------------------------------------------------- when an operation succeeds

  /** No message fails for lack of funds, or because there is nobody to pay; and a contract is
      missing only for a caller who named one that never existed. */
  lemma PaymentsNeverFail(w: World, block: Block, call: Call)
    requires Inv(w, block) && block.NotAfter(call.block)
    ensures Handle(w, call).Err? ==> Handle(w, call).error !in {InsufficientBalance, DivisionByZero}
    ensures Handle(w, call) == Err(NoSuchContract) ==>
      call.message.CallMultisig? && call.message.contract !in w.multisigs
  {
    hide Inv, M.Handle, NewMultisig;
    match call.message
    case Donate(_) =>
    case RegisterComplaint(_, _, _, _) =>
    case AcceptComplaint(_, _) =>
    case WithdrawComplaint(_, _) => WithdrawKeeps(w, block, call);
    case ProposeArbiters(_, _, _) =>
    case RenderDecision(id, summary, ipfsLink) =>
      if call.sender !in w.multisigs {
        OnlyMultisigsRender(w, block, call.sender, id, summary, ipfsLink);
      }
    case CallMultisig(contract, message, _, _) =>
      if message.Execute? && contract in w.multisigs
         && M.Handle(w.multisigs[contract], Call(call.block, call.sender, M.Execute)).Ok? {
        ExecutionDelivers(w, block, call);
      }
  }

  /** The plaintiff can withdraw exactly until the complaint is accepted for good. */
  lemma WithdrawalSucceedsIff(w: World, block: Block, call: Call)
    requires Inv(w, block) && block.NotAfter(call.block) && call.message.WithdrawComplaint?
    ensures Handle(w, call).Ok? <==>
      var id := call.message.id;
      && id in w.complaints && w.complaints[id].plaintiff == call.sender
      && var state := w.complaints[id].CurrentState(call.block);
         state.Initiated? || state.Waiting? || state.Aborted?
  {
    WithdrawKeeps(w, block, call);
  }

  /** A complaint accepted for good can be handed to any non-empty list of arbiters, once. */
  lemma AssignmentSucceedsIff(w: World, call: Call)
    requires call.message.ProposeArbiters?
    ensures Handle(w, call).Ok? <==>
      var id := call.message.id;
      && id in w.complaints && w.complaints[id].CurrentState(call.block) == Accepted
      && call.message.contract !in w.multisigs && call.message.arbiters != []
  {
    hide NewMultisig, MP.Inv;
    NewMultisigIff(w, call.block, call.message.id, call.message.arbiters);
  }

  /** A multisig's execution goes through exactly while its complaint is in its hands and the
      ballots cast give a pass. */
  lemma DecisionSucceedsIff(w: World, block: Block, call: Call)
    requires Inv(w, block) && block.NotAfter(call.block)
    requires call.message.CallMultisig? && call.message.message.Execute? && call.message.contract in w.multisigs
    ensures
      var contract := call.message.contract;
      var m := w.multisigs[contract];
      && m.votes.abstain <= m.config.totalWeight && m.config.complaintId in w.complaints
      && (Handle(w, call).Ok? <==>
            w.complaints[m.config.complaintId].state == Processing(contract)
            && M.Verdict(m.config, m.votes, call.block) == Passed)
  {
    hide AccountsFit, Balanced, HandedOver, M.HandleExecute, Render, Ascending;
    var contract := call.message.contract;
    var m := w.multisigs[contract];
    PollInv(w, block, contract);
    MP.ExecuteIff(m, block, call.block);
    assert M.Handle(m, Call(call.block, call.sender, M.Execute)) == M.HandleExecute(m, call.block);
    if M.HandleExecute(m, call.block).Ok? {
      ExecutionDelivers(w, block, call);
    }
  }

  /** A new complaint is the sender's, under a new id, and open for the defendant until the waiting
      period is over, to the nanosecond. */
  lemma RegistrationResult(w: World, block: Block, call: Call, later: Block)
    requires Inv(w, block) && call.message.RegisterComplaint?
    ensures Handle(w, call).Ok? <==> call.message.payment == w.config.disputeCost > 0
    ensures Handle(w, call).Ok? ==>
      var next, id := Handle(w, call).value, w.config.nextComplaintId;
      && id !in w.complaints && next.complaints.Keys == w.complaints.Keys + {id}
      && next.complaints[id].plaintiff == call.sender && next.complaints[id].defendant == call.message.defendant
      && next.multisigs == w.multisigs
      && next.complaints[id].CurrentState(later) ==
           if later.time < call.block.time + w.config.waitingPeriod * 1_000_000_000
           then Initiated(call.block.time + w.config.waitingPeriod * 1_000_000_000) else Aborted
  {
    hide Balanced, PollsFit, HandedOver;
  }

  /** The defendant can accept exactly while the complaint is initiated, for the same price, and the
      plaintiff may then withdraw until another waiting period is over. */
  lemma AcceptanceResult(w: World, call: Call, later: Block)
    requires call.message.AcceptComplaint?
    ensures Handle(w, call).Ok? <==>
      var id := call.message.id;
      && call.message.payment == w.config.disputeCost > 0
      && id in w.complaints && w.complaints[id].defendant == call.sender
      && w.complaints[id].CurrentState(call.block).Initiated?
    ensures Handle(w, call).Ok? ==>
      var next := Handle(w, call).value;
      && next.complaints.Keys == w.complaints.Keys && next.multisigs == w.multisigs
      && next.complaints[call.message.id].CurrentState(later) ==
           if later.time < call.block.time + w.config.waitingPeriod * 1_000_000_000
           then Waiting(call.block.time + w.config.waitingPeriod * 1_000_000_000) else Accepted
  {
  }

  // ---------------------------------------------------------------- complaints only move forward

  /** The lifecycle: which states may come after which. */
  predicate Reaches(s: ComplaintState, t: ComplaintState) {
    s == t ||
    match s
    case Initiated(_) => !t.Initiated?
    case Waiting(_) => t.Accepted? || t.Processing? || t.Closed? || t.Withdrawn?
    case Aborted => t.Withdrawn?
    case Accepted => t.Processing? || t.Closed?
    case Processing(_) => t.Closed?
    case Withdrawn(_) => false
    case Closed(_, _) => false
  }

  lemma ReachesTransitive(s: ComplaintState, t: ComplaintState, u: ComplaintState)
    requires Reaches(s, t) && Reaches(t, u)
    ensures Reaches(s, u)
  {
  }

  /** Waiting moves a complaint forward too. */
  lemma TimeMovesForward(c: Complaint, block: Block, later: Block)
    requires block.NotAfter(later)
    ensures Reaches(c.CurrentState(block), c.CurrentState(later))
  {
  }

  /** Bringing a complaint up to date early does not change what it becomes later. */
  lemma LazyUpdateAgrees(c: Complaint, block: Block, later: Block)
    requires block.NotAfter(later)
    ensures c.UpdateState(block).UpdateState(later) == c.UpdateState(later)
  {
  }

  predicate Finished(state: ComplaintState) {
    state.Withdrawn? || state.Closed?
  }

  /** A complaint of `w` is still there in `next`, between the same parties, no earlier in the
      lifecycle, and with its books closed if it was finished. */
  ghost predicate Follows(w: World, block: Block, next: World, later: Block, id: nat)
    requires id in w.complaints
  {
    && id in next.complaints
    && next.complaints[id].plaintiff == w.complaints[id].plaintiff
    && next.complaints[id].defendant == w.complaints[id].defendant
    && Reaches(w.complaints[id].CurrentState(block), next.complaints[id].CurrentState(later))
    && (Finished(w.complaints[id].state) ==> AccountOf(next, id) == AccountOf(w, id))
  }

  lemma HandleFollows(w: World, block: Block, call: Call, id: nat)
    requires Inv(w, block) && id in w.complaints && Handle(w, call).Ok?
    ensures Follows(w, call.block, Handle(w, call).value, call.block, id)
  {
    hide Inv, M.Handle, NewMultisig, Ascending, FeeEach, TotalSent, Discounted;
    match call.message
    case Donate(_) =>
    case RegisterComplaint(_, _, _, _) => IdNotNext(w, block, id);
    case AcceptComplaint(_, _) =>
    case WithdrawComplaint(_, _) =>
    case ProposeArbiters(_, _, _) =>
    case RenderDecision(_, _, _) =>
    case CallMultisig(_, _, _, _) =>
  }

  lemma IdNotNext(w: World, block: Block, id: nat)
    requires Inv(w, block) && id in w.complaints
    ensures id != w.config.nextComplaintId
  {
  }

  lemma StepFollows(w: World, block: Block, call: Call, id: nat)
    requires Inv(w, block) && block.NotAfter(call.block) && id in w.complaints
    ensures Follows(w, block, Step(w, call), call.block, id)
  {
    hide Inv, Handle, Reaches;
    TimeMovesForward(w.complaints[id], block, call.block);
    if Handle(w, call).Ok? {
      HandleFollows(w, block, call, id);
      ReachesTransitive(w.complaints[id].CurrentState(block), w.complaints[id].CurrentState(call.block),
                        Step(w, call).complaints[id].CurrentState(call.block));
    }
  }

  /** Over a whole run every complaint moves only forward, and what is finished stays as it is:
      in particular nothing is ever paid on it again. */
  lemma {:induction false} RunFollows(w: World, block: Block, calls: seq<Call>, id: nat)
    requires Inv(w, block) && Ordered(block, calls) && id in w.complaints
    ensures Follows(w, block, Run(w, calls), LastBlock(block, calls), id)
    decreases |calls|
  {
    hide Inv, Step, Reaches;
    if calls == [] {
      TimeMovesForward(w.complaints[id], block, block);
    } else {
      var next, soon := Step(w, calls[0]), calls[0].block;
      StepKeeps(w, block, calls[0]);
      StepFollows(w, block, calls[0], id);
      RunFollows(next, soon, calls[1..], id);
      ReachesTransitive(w.complaints[id].CurrentState(block), next.complaints[id].CurrentState(soon),
                        Run(w, calls).complaints[id].CurrentState(LastBlock(block, calls)));
      if Finished(w.complaints[id].state) {
        FinishedStays(w.complaints[id], next.complaints[id], block, soon);
      }
    }
  }

  lemma FinishedStays(c: Complaint, next: Complaint, block: Block, later: Block)
    requires Reaches(c.CurrentState(block), next.CurrentState(later)) && Finished(c.state)
    ensures Finished(next.state)
  {
  }

  // ---------------------------------------------------------------- who is paid

  /** Each complaint pays in at most one transaction, and only once it is finished. */
  lemma PaysAtMostOnce(self: Addr, disputeCost: nat, waitingPeriod: nat, block: Block, calls: seq<Call>, id: nat)
    requires Ordered(block, calls)
    requires id in Run(Start(self, disputeCost, waitingPeriod), calls).complaints
    ensures
      var w := Run(Start(self, disputeCost, waitingPeriod), calls);
      && !w.complaints[id].state.Aborted? && !w.complaints[id].state.Accepted?
      && id in w.accounts
      && w.accounts[id].payouts == (if Finished(w.complaints[id].state) then 1 else 0)
      && (w.accounts[id].payouts == 0 ==> w.accounts[id].sent == [])
      && TotalSent(w.accounts[id].sent) <= w.accounts[id].paidIn <= 2 * disputeCost
  {
    hide TotalSent;
    StartKeeps(self, disputeCost, waitingPeriod, block);
    RunKeeps(Start(self, disputeCost, waitingPeriod), block, calls);
    var w := Run(Start(self, disputeCost, waitingPeriod), calls);
    RunKeepsCost(Start(self, disputeCost, waitingPeriod), calls);
    HeldNonNegative(w.complaints[id], w.accounts[id], disputeCost);
  }

  lemma {:induction false} RunKeepsCost(w: World, calls: seq<Call>)
    ensures Run(w, calls).config.disputeCost == w.config.disputeCost
    ensures Run(w, calls).config.waitingPeriod == w.config.waitingPeriod
    ensures Run(w, calls).self == w.self
    decreases |calls|
  {
    if calls == [] {
    } else {
      StepKeepsCost(w, calls[0]);
      RunKeepsCost(Step(w, calls[0]), calls[1..]);
    }
  }

  lemma StepKeepsCost(w: World, call: Call)
    ensures Step(w, call).config.disputeCost == w.config.disputeCost
    ensures Step(w, call).config.waitingPeriod == w.config.waitingPeriod
    ensures Step(w, call).self == w.self
  {
    hide M.Handle, NewMultisig, Ascending, FeeEach, TotalSent, Discounted;
  }

  /** A decision pays every voter of the multisig exactly once, all the same, and nobody else; less
      than one unit per voter stays behind. */
  lemma DecisionPaysEachVoterOnce(w: World, block: Block, contract: Addr)
    requires Inv(w, block) && contract in w.multisigs && w.multisigs[contract].decisions > 0
    ensures
      var m := w.multisigs[contract];
      && m.config.complaintId in w.complaints && m.config.complaintId in w.accounts
      && w.complaints[m.config.complaintId].state.Closed?
      && var sent := w.accounts[m.config.complaintId].sent;
         && 0 < |sent| == |m.voters|
         && (forall i, j :: 0 <= i < j < |sent| ==> sent[i].to < sent[j].to)
         && (forall i :: 0 <= i < |sent| ==>
             sent[i].to in m.voters && sent[i].amount == 2 * w.config.disputeCost / |sent|)
         && 2 * w.config.disputeCost - |sent| < TotalSent(sent) <= 2 * w.config.disputeCost
  {
    hide AccountsFit, Balanced, HandedOver, MP.Inv, Ascending, TotalSent;
    var m := w.multisigs[contract];
    PollInv(w, block, contract);
    var members := Ascending(m.voters.Keys);
    forall i | 0 <= i < |members| ensures members[i] in m.voters {
      assert members[i] in members;
    }
    FeeSplit(w.config.disputeCost, members);
  }

  // ---------------------------------------------------------------- can the arbiters decide at all?

  /** One message to the pool is at most one message to a given multisig. */
  lemma StepProjects(w: World, block: Block, call: Call, a: Addr)
    requires Inv(w, block) && block.NotAfter(call.block) && a in w.multisigs
    ensures a in Step(w, call).multisigs
    ensures
      || Step(w, call).multisigs[a] == w.multisigs[a]
      || (call.message.CallMultisig? && call.message.contract == a
          && Step(w, call).multisigs[a]
             == M.Step(w.multisigs[a], Call(call.block, call.sender, call.message.message)))
  {
    hide Inv, M.Handle, NewMultisig, Ascending, FeeEach, TotalSent, Discounted;
  }

  /** What a run of the pool does to one multisig is a run of that multisig. */
  lemma {:induction false} RunProjects(w: World, block: Block, calls: seq<Call>, a: Addr) returns (polls: seq<M.Call>)
    requires Inv(w, block) && Ordered(block, calls) && a in w.multisigs
    ensures Ordered(block, polls) && a in Run(w, calls).multisigs
    ensures Run(w, calls).multisigs[a] == M.Run(w.multisigs[a], polls)
    decreases |calls|
  {
    hide Inv, Step, M.Step;
    polls := [];
    if calls == [] {
    } else {
      var call, next := calls[0], Step(w, calls[0]);
      StepKeeps(w, block, call);
      StepProjects(w, block, call, a);
      var rest := RunProjects(next, call.block, calls[1..], a);
      if next.multisigs[a] == w.multisigs[a] {
        OrderedEarlier(block, call.block, rest);
        polls := rest;
      } else {
        var poll := Call(call.block, call.sender, call.message.message);
        MP.RunSplit(w.multisigs[a], poll, rest);
        polls := [poll] + rest;
        assert polls[1..] == rest;
      }
    }
  }

  lemma OrderedEarlier(block: Block, later: Block, polls: seq<M.Call>)
    requires block.NotAfter(later) && Ordered(later, polls)
    ensures Ordered(block, polls)
  {
  }

  /** A message to a multisig, sent through the chain. */
  function Through(a: Addr, poll: M.Call): Call {
    Call(poll.block, poll.sender, CallMultisig(a, poll.message, "", ""))
  }

  function AllThrough(a: Addr, polls: seq<M.Call>): seq<Call> {
    seq(|polls|, i requires 0 <= i < |polls| => Through(a, polls[i]))
  }

  /** The pool never stands in the way of a multisig. */
  lemma StepLifts(w: World, block: Block, poll: M.Call, a: Addr)
    requires Inv(w, block) && block.NotAfter(poll.block) && a in w.multisigs
    ensures a in Step(w, Through(a, poll)).multisigs
    ensures Step(w, Through(a, poll)).multisigs[a] == M.Step(w.multisigs[a], poll)
  {
    hide Inv, M.Handle, Render;
    if poll.message.Execute? && M.Handle(w.multisigs[a], poll).Ok? {
      assert poll == Call(poll.block, poll.sender, M.Execute);
      ExecutionDelivers(w, block, Through(a, poll));
    }
  }

  /** Every run of a multisig is one that the pool goes along with. */
  lemma {:induction false} RunLifts(w: World, block: Block, polls: seq<M.Call>, a: Addr)
    requires Inv(w, block) && Ordered(block, polls) && a in w.multisigs
    ensures Ordered(block, AllThrough(a, polls)) && a in Run(w, AllThrough(a, polls)).multisigs
    ensures Run(w, AllThrough(a, polls)).multisigs[a] == M.Run(w.multisigs[a], polls)
    decreases |polls|
  {
    hide Inv, Step, M.Step;
    if polls == [] {
    } else {
      var call := Through(a, polls[0]);
      StepKeeps(w, block, call);
      StepLifts(w, block, polls[0], a);
      RunLifts(Step(w, call), polls[0].block, polls[1..], a);
      assert AllThrough(a, polls)[1..] == AllThrough(a, polls[1..]);
    }
  }

  ghost predicate ClosedBy(w: World, calls: seq<Call>, id: nat) {
    var end := Run(w, calls);
    id in end.complaints && end.complaints[id].state.Closed?
  }

  /** A complaint handed to a fresh multisig can be closed exactly if the poll can be decided. */
  lemma ClosableIffDecidable(w: World, block: Block, id: nat)
    requires Inv(w, block) && id in w.complaints && w.complaints[id].state.Processing?
    requires
      var a := w.complaints[id].state.arbiters;
      a in w.multisigs && w.multisigs[a].ballots == map[] && w.multisigs[a].status == Open
      && w.multisigs[a].config.expires != Never
    ensures (exists calls :: Ordered(block, calls) && ClosedBy(w, calls, id)) <==>
            MP.Decidable(w.multisigs[w.complaints[id].state.arbiters], block)
  {
    hide Inv, Run, M.Run, Ordered, MP.Inv, MP.Decidable;
    var a := w.complaints[id].state.arbiters;
    InHands(w, block, id);
    if exists calls :: Ordered(block, calls) && ClosedBy(w, calls, id) {
      var calls :| Ordered(block, calls) && ClosedBy(w, calls, id);
      var polls := RunProjects(w, block, calls, a);
      ClosedMeansDecided(w, block, calls, id);
      MP.DecisionNeedsDecidable(w.multisigs[a], block, polls);
    }
    if MP.Decidable(w.multisigs[a], block) {
      var polls := MP.DecidableGivesDecision(w.multisigs[a], block);
      RunLifts(w, block, polls, a);
      DecidedMeansClosed(w, block, AllThrough(a, polls), id);
    }
  }

  lemma InHands(w: World, block: Block, id: nat)
    requires Inv(w, block) && id in w.complaints && w.complaints[id].state.Processing?
    ensures
      var a := w.complaints[id].state.arbiters;
      && a in w.multisigs && w.multisigs[a].config.complaintId == id && w.multisigs[a].decisions == 0
      && MP.Inv(w.multisigs[a], block)
  {
    PollInv(w, block, w.complaints[id].state.arbiters);
  }

  lemma RunKeepsPoll(w: World, block: Block, calls: seq<Call>, a: Addr)
    requires Inv(w, block) && Ordered(block, calls) && a in w.multisigs
    ensures a in Run(w, calls).multisigs && Run(w, calls).multisigs[a].config == w.multisigs[a].config
  {
    hide Inv, Run, M.Run, Ordered, MP.Inv;
    var polls := RunProjects(w, block, calls, a);
    assert MP.Inv(w.multisigs[a], block) by { PollInvOf(w, block, a); }
    MP.RunKeepsInv(w.multisigs[a], block, polls);
  }

  lemma PollInvOf(w: World, block: Block, a: Addr)
    requires Inv(w, block) && a in w.multisigs
    ensures PollFits(w, block, a) && MP.Inv(w.multisigs[a], block)
  {
    PollInv(w, block, a);
  }

  /** If the complaint is closed in the end, its multisig has decided. */
  lemma ClosedMeansDecided(w: World, block: Block, calls: seq<Call>, id: nat)
    requires Inv(w, block) && Ordered(block, calls) && id in w.complaints && w.complaints[id].state.Processing?
    requires ClosedBy(w, calls, id)
    ensures
      var a := w.complaints[id].state.arbiters;
      a in Run(w, calls).multisigs && Run(w, calls).multisigs[a].decisions > 0
  {
    hide Inv, Run, M.Run, Ordered, MP.Inv;
    InHands(w, block, id);
    var a := w.complaints[id].state.arbiters;
    RunKeepsPoll(w, block, calls, a);
    RunKeeps(w, block, calls);
    PollInvOf(Run(w, calls), LastBlock(block, calls), a);
  }

  lemma DecidedMeansClosed(w: World, block: Block, calls: seq<Call>, id: nat)
    requires Inv(w, block) && Ordered(block, calls) && id in w.complaints && w.complaints[id].state.Processing?
    requires
      var a := w.complaints[id].state.arbiters;
      a in Run(w, calls).multisigs && Run(w, calls).multisigs[a].decisions > 0
    ensures ClosedBy(w, calls, id)
  {
    hide Inv, Run, M.Run, Ordered, MP.Inv;
    InHands(w, block, id);
    var a := w.complaints[id].state.arbiters;
    RunKeepsPoll(w, block, calls, a);
    RunKeeps(w, block, calls);
    PollInvOf(Run(w, calls), LastBlock(block, calls), a);
  }

  /** A map to ones sums to its size. */
  lemma {:induction false} SumOfOnes(m: map<Addr, nat>)
    requires forall a :: a in m ==> m[a] == 1
    ensures Sum(m) == |m.Keys|
    decreases |m|
  {
    if m.Keys == {} {
    } else {
      var a := Pick(m);
      WithoutKey(m, a);
      SumOfOnes(m - {a});
    }
  }

  /** A new multisig can decide exactly if voting takes any time at all, and the distinct arbiters
      are more than half of the entries. */
  lemma NewPollDecidableIff(w: World, block: Block, id: nat, arbiters: seq<Addr>)
    requires arbiters != []
    ensures
      var r := NewMultisig(w, block, id, arbiters);
      && r.Ok? && r.value.ballots == map[] && r.value.status == Open && r.value.config.expires != Never
      && (MP.Decidable(r.value, block) <==>
            w.config.waitingPeriod > 0 && |set a | a in arbiters| > |arbiters| / 2)
  {
    OneVoterPerArbiter(arbiters);
    assert VotersOf(arbiters) != [];
    SumOfOnes(M.VoterTable(VotersOf(arbiters)));
  }

  /** After arbiters are assigned, the complaint can still be closed by some run exactly if the
      waiting period is not zero and more than half of the named arbiters are distinct. */
  lemma AssignedClosableIff(w: World, block: Block, call: Call)
    requires Inv(w, block) && block.NotAfter(call.block) && call.message.ProposeArbiters? && Handle(w, call).Ok?
    ensures
      var arbiters := call.message.arbiters;
      (exists calls :: Ordered(call.block, calls) && ClosedBy(Handle(w, call).value, calls, call.message.id))
      <==> w.config.waitingPeriod > 0 && |set a | a in arbiters| > |arbiters| / 2
  {
    hide Inv, MP.Inv, MP.Decidable, NewMultisig;
    var id, arbiters := call.message.id, call.message.arbiters;
    AssignmentSucceedsIff(w, call);
    NewPollDecidableIff(w, call.block, id, arbiters);
    AssignKeeps(w, block, call);
    ClosableIffDecidable(Handle(w, call).value, call.block, id);
  }

  // ---------------------------------------------------------------- from a complaint to its decision

  lemma {:induction false} RunConcat(w: World, one: seq<Call>, two: seq<Call>)
    ensures Run(w, one + two) == Run(Run(w, one), two)
    decreases |one|
  {
    hide Step;
    if one == [] {
      assert one + two == two;
    } else {
      assert (one + two)[1..] == one[1..] + two;
      RunConcat(Step(w, one[0]), one[1..], two);
    }
  }

  lemma RunOfThree(w: World, block: Block, a: Call, b: Call, c: Call)
    requires block.NotAfter(a.block) && a.block.NotAfter(b.block) && b.block.NotAfter(c.block)
    ensures Run(w, [a, b, c]) == Step(Step(Step(w, a), b), c)
    ensures Ordered(block, [a, b, c]) && LastBlock(block, [a, b, c]) == c.block
  {
    hide Step;
    var none: seq<Call> := [];
    assert [a, b, c][1..] == [b, c] && [b, c][1..] == [c] && [c][1..] == none;
    assert Run(w, [a, b, c]) == Run(Step(w, a), [b, c]);
    assert Run(Step(w, a), [b, c]) == Run(Step(Step(w, a), b), [c]);
    assert Ordered(c.block, none);
    assert Ordered(b.block, [c]);
    assert Ordered(a.block, [b, c]);
  }

  /** A complaint is made and accepted in a block, and handed to arbiters when the waiting period is over. */
  function ToArbiters(w: World, block: Block, plaintiff: Addr, defendant: Addr, arbiters: seq<Addr>, contract: Addr)
    : seq<Call>
  {
    var cost, id := w.config.disputeCost, w.config.nextComplaintId;
    var later := Block(block.height, w.config.Deadline(block));
    [Call(block, plaintiff, RegisterComplaint(cost, "", "", defendant)),
     Call(block, defendant, AcceptComplaint(cost, id)),
     Call(later, plaintiff, ProposeArbiters(id, arbiters, contract))]
  }

  /** The first two go through, and leave the third to hand over a complaint accepted for good. */
  lemma MadeAndAccepted(w: World, block: Block, plaintiff: Addr, defendant: Addr, arbiters: seq<Addr>, contract: Addr)
    requires Inv(w, block) && w.config.disputeCost > 0 && w.config.waitingPeriod > 0
    requires contract !in w.multisigs && arbiters != []
    ensures
      var calls := ToArbiters(w, block, plaintiff, defendant, arbiters, contract);
      var accepted := Step(Step(w, calls[0]), calls[1]);
      && Inv(accepted, block) && accepted.config.waitingPeriod == w.config.waitingPeriod
      && Handle(accepted, calls[2]).Ok?
  {
    hide Inv, Handle;
    var calls := ToArbiters(w, block, plaintiff, defendant, arbiters, contract);
    RegistrationResult(w, block, calls[0], block);
    StepKeeps(w, block, calls[0]);
    StepKeepsCost(w, calls[0]);
    var made := Step(w, calls[0]);
    AcceptanceResult(made, calls[1], calls[2].block);
    StepKeeps(made, block, calls[1]);
    StepKeepsCost(made, calls[1]);
    AssignmentSucceedsIff(Step(made, calls[1]), calls[2]);
  }

  /** Whenever the pool charges for complaints and lets them wait, a new one between any two parties can be
      made, accepted, handed to any list of arbiters more than half of which is distinct, and closed. */
  lemma NewComplaintCanBeClosed(w: World, block: Block, plaintiff: Addr, defendant: Addr, arbiters: seq<Addr>,
                                contract: Addr)
    returns (calls: seq<Call>)
    requires Inv(w, block) && w.config.disputeCost > 0 && w.config.waitingPeriod > 0
    requires contract !in w.multisigs && |set a | a in arbiters| > |arbiters| / 2
    ensures ToArbiters(w, block, plaintiff, defendant, arbiters, contract) <= calls
    ensures Ordered(block, calls) && ClosedBy(w, calls, w.config.nextComplaintId)
  {
    hide Inv, Handle, Run, Ordered;
    var start := ToArbiters(w, block, plaintiff, defendant, arbiters, contract);
    assert arbiters == [] ==> (set a | a in arbiters) == {};
    MadeAndAccepted(w, block, plaintiff, defendant, arbiters, contract);
    var accepted := Step(Step(w, start[0]), start[1]);
    AssignedClosableIff(accepted, block, start[2]);
    var rest :| Ordered(start[2].block, rest)
                && ClosedBy(Handle(accepted, start[2]).value, rest, w.config.nextComplaintId);
    RunOfThree(w, block, start[0], start[1], start[2]);
    assert start == [start[0], start[1], start[2]];
    calls := start + rest;
    RunConcat(w, start, rest);
    OrderedConcat(block, start, rest);
  }

  /** No new complaint, from this id on, gets anywhere: each is aborted or withdrawn. */
  ghost predicate NoneAccepted(w: World, block: Block, first: nat) {
    && first <= w.config.nextComplaintId
    && forall id :: id in w.complaints && first <= id ==>
         w.complaints[id].CurrentState(block).Aborted? || w.complaints[id].CurrentState(block).Withdrawn?
  }

  lemma OnlyRegisteredIsNew(w: World, call: Call)
    requires Handle(w, call).Ok?
    ensures !call.message.RegisterComplaint? ==> Handle(w, call).value.complaints.Keys == w.complaints.Keys
    ensures w.config.nextComplaintId <= Handle(w, call).value.config.nextComplaintId
  {
    hide M.Handle, NewMultisig, Ascending, FeeEach, TotalSent, Discounted;
  }

  lemma StepAcceptsNone(w: World, block: Block, call: Call, first: nat)
    requires Inv(w, block) && block.NotAfter(call.block) && NoneAccepted(w, block, first)
    requires w.config.disputeCost == 0 || w.config.waitingPeriod == 0
    ensures NoneAccepted(Step(w, call), call.block, first)
  {
    hide Inv, Handle, Complaint.CurrentState;
    var next := Step(w, call);
    if Handle(w, call).Ok? {
      OnlyRegisteredIsNew(w, call);
    }
    forall id | id in next.complaints && first <= id
      ensures
        var state := next.complaints[id].CurrentState(call.block);
        state.Aborted? || state.Withdrawn?
    {
      if id in w.complaints {
        StepFollows(w, block, call, id);
      } else {
        InvAt(w, block, call.block);
        RegistrationResult(w, call.block, call, call.block);
      }
    }
  }

  lemma InvAt(w: World, block: Block, later: Block)
    requires Inv(w, block) && block.NotAfter(later)
    ensures Inv(w, later)
  {
    hide PollsFit;
    PollsLater(w, block, later);
  }

  lemma {:induction false} RunAcceptsNone(w: World, block: Block, calls: seq<Call>, first: nat)
    requires Inv(w, block) && Ordered(block, calls) && NoneAccepted(w, block, first)
    requires w.config.disputeCost == 0 || w.config.waitingPeriod == 0
    ensures NoneAccepted(Run(w, calls), LastBlock(block, calls), first)
    decreases |calls|
  {
    hide Inv, Step, NoneAccepted;
    if calls == [] {
    } else {
      StepAcceptsNone(w, block, calls[0], first);
      StepKeeps(w, block, calls[0]);
      StepKeepsCost(w, calls[0]);
      RunAcceptsNone(Step(w, calls[0]), calls[0].block, calls[1..], first);
    }
  }

  lemma {:induction false} FreshAddress(used: set<Addr>) returns (a: Addr)
    ensures forall b :: b in used ==> b < a
    decreases |used|
  {
    if used == {} {
      a := 0;
    } else {
      var b :| b in used;
      var c := FreshAddress(used - {b});
      a := if b < c then c else b + 1;
      forall x | x in used ensures x < a {
        assert x == b || x in used - {b};
      }
    }
  }

  lemma NoIdYet(w: World, block: Block)
    requires Inv(w, block)
    ensures NoneAccepted(w, block, w.config.nextComplaintId)
  {
  }

  /** At any point of any run, some new complaint can still be brought to a decision if and only if the
      dispute cost and the waiting period are not zero. */
  lemma NewComplaintClosableIff(w: World, block: Block)
    requires Inv(w, block)
    ensures (exists calls, id :: Ordered(block, calls) && w.config.nextComplaintId <= id && ClosedBy(w, calls, id)) <==>
            w.config.disputeCost > 0 && w.config.waitingPeriod > 0
  {
    hide Inv, Run, Ordered;
    if exists calls, id :: Ordered(block, calls) && w.config.nextComplaintId <= id && ClosedBy(w, calls, id) {
      var calls, id :| Ordered(block, calls) && w.config.nextComplaintId <= id && ClosedBy(w, calls, id);
      if w.config.disputeCost == 0 || w.config.waitingPeriod == 0 {
        NoIdYet(w, block);
        RunAcceptsNone(w, block, calls, w.config.nextComplaintId);
      }
    }
    if w.config.disputeCost > 0 && w.config.waitingPeriod > 0 {
      var contract := FreshAddress(w.multisigs.Keys);
      var arbiters: seq<Addr> := [0];
      assert (set a | a in arbiters) == {0};
      var calls := NewComplaintCanBeClosed(w, block, 0, 1, arbiters, contract);
    }
  }

  /** Naming one arbiter twice locks both costs for good: no run closes the complaint. */
  lemma SameArbiterTwiceNeverDecides(w: World, block: Block, call: Call, arbiter: Addr, calls: seq<Call>)
    requires Inv(w, block) && block.NotAfter(call.block) && call.message.ProposeArbiters? && Handle(w, call).Ok?
    requires call.message.arbiters == [arbiter, arbiter] && Ordered(call.block, calls)
    ensures !ClosedBy(Handle(w, call).value, calls, call.message.id)
  {
    hide Inv, Handle, Run;
    AssignedClosableIff(w, block, call);
    assert (set a | a in [arbiter, arbiter]) == {arbiter};
  }

  /** Once its arbiters' poll is lost, a complaint stays in processing for good. */
  lemma LostPollLocksComplaint(w: World, block: Block, id: nat, calls: seq<Call>)
    requires Inv(w, block) && id in w.complaints && w.complaints[id].state.Processing? && Ordered(block, calls)
    requires
      var a := w.complaints[id].state.arbiters;
      && a in w.multisigs && w.multisigs[a].votes.abstain <= w.multisigs[a].config.totalWeight
      && M.Verdict(w.multisigs[a].config, w.multisigs[a].votes, block) == Rejected
    ensures id in Run(w, calls).complaints && Run(w, calls).complaints[id].state == w.complaints[id].state
  {
    hide Inv, Run, M.Run, Ordered, MP.Inv, M.Verdict;
    InHands(w, block, id);
    var a := w.complaints[id].state.arbiters;
    RunFollows(w, block, calls, id);
    if ClosedBy(w, calls, id) {
      ClosedMeansDecided(w, block, calls, id);
      var polls := RunProjects(w, block, calls, a);
      LostStaysUndecided(w.multisigs[a], block, polls);
    }
  }

  lemma LostStaysUndecided(m: M.Storage, block: Block, polls: seq<M.Call>)
    requires MP.Inv(m, block) && Ordered(block, polls)
    requires M.Verdict(m.config, m.votes, block) == Rejected
    ensures M.Run(m, polls).decisions == 0
  {
    var last := LastBlock(block, polls);
    MP.VerdictSurvivesRun(m, block, polls, last);
    MP.RunKeepsInv(m, block, polls);
    MP.CachedStatusAgrees(M.Run(m, polls), last, last);
  }
}
