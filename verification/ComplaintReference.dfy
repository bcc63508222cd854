/**
 The arbiter pool's complaints described a second time: when a message is accepted and what it leaves, with
 the amounts written out and without the functions of `Complaints`.
 */
module ComplaintReference {
  import opened Base
  import opened Sums
  import opened Voting
  import M = Multisig
  import MP = MultisigProofs
  import MR = MultisigReference
  import opened Complaints
  import opened ComplaintProofs

  /** The defendant may still accept. */
  predicate OpenForAcceptance(c: Complaint, block: Block) {
    c.state.Initiated? && block.time < c.state.expiration
  }

  /** The defendant let it lapse. */
  predicate Lapsed(c: Complaint, block: Block) {
    c.state.Aborted? || (c.state.Initiated? && c.state.expiration <= block.time)
  }

  /** Accepted, and the plaintiff may still withdraw. */
  predicate MayStillWithdraw(c: Complaint, block: Block) {
    c.state.Waiting? && block.time < c.state.waitOver
  }

  predicate AcceptedForGood(c: Complaint, block: Block) {
    c.state.Accepted? || (c.state.Waiting? && c.state.waitOver <= block.time)
  }

  function PeriodOver(w: World, block: Block): nat {
    block.time + w.config.waitingPeriod * 1_000_000_000
  }

  predicate Registered(w: World, block: Block, sender: Addr, payment: nat, title: string, description: string,
                       defendant: Addr, next: World)
  {
    var id := w.config.nextComplaintId;
    && payment == w.config.disputeCost && payment > 0
    && next == w.(config := w.config.(nextComplaintId := id + 1),
                  complaints := w.complaints[id :=
                    Complaint(title, description, sender, defendant, Initiated(PeriodOver(w, block)))],
                  accounts := w.accounts[id := Account(payment, [], 0)],
                  balance := w.balance + payment)
  }

  predicate AcceptedBy(w: World, block: Block, sender: Addr, payment: nat, id: nat, next: World) {
    && payment == w.config.disputeCost && payment > 0
    && id in w.complaints && w.complaints[id].defendant == sender && OpenForAcceptance(w.complaints[id], block)
    && next == w.(complaints := w.complaints[id := w.complaints[id].(state := Waiting(PeriodOver(w, block)))],
                  accounts := w.accounts[id := Account(2 * payment, [], 0)],
                  balance := w.balance + payment)
  }

  /** The plaintiff withdraws. If the complaint is initiated he gets 80% of the cost back, if it is waiting he
      and the defendant get that each, and if the defendant let it lapse he gets all. */
  predicate WithdrawnBy(w: World, block: Block, sender: Addr, id: nat, reason: string, next: World) {
    && id in w.complaints && id in w.accounts && w.complaints[id].plaintiff == sender
    && var c, cost := w.complaints[id], w.config.disputeCost;
       var most := cost * 80 / 100;
       && (OpenForAcceptance(c, block) || MayStillWithdraw(c, block) || Lapsed(c, block))
       && var (sends, total) :=
            if OpenForAcceptance(c, block) then ([Send(c.plaintiff, most)], most)
            else if MayStillWithdraw(c, block) then ([Send(c.plaintiff, most), Send(c.defendant, most)], 2 * most)
            else ([Send(c.plaintiff, cost)], cost);
          && total <= w.balance
          && next == w.(complaints := w.complaints[id := c.(state := Withdrawn(reason))],
                        accounts := w.accounts[id := Account(w.accounts[id].paidIn, sends, 1)],
                        balance := w.balance - total)
  }

  /** A fresh poll of the arbiters on a complaint, more than half of whom are to agree within a waiting period. */
  ghost predicate FreshPoll(w: World, block: Block, id: nat, arbiters: seq<Addr>, poll: M.Storage) {
    && (forall a :: a in poll.voters <==> a in arbiters) && (forall a :: a in poll.voters ==> poll.voters[a] == 1)
    && poll.config.parent == w.self && poll.config.threshold == AbsoluteCount(|arbiters| / 2 + 1)
    && poll.config.totalWeight == |arbiters| && poll.config.complaintId == id
    && poll.config.expires == AtTime(PeriodOver(w, block))
    && poll.votes == Votes(0, 0, 0, 0) && poll.status == Open && poll.ballots == map[] && poll.decisions == 0
  }

  /** An accepted complaint is handed to a new poll of its arbiters. */
  ghost predicate HandedTo(w: World, block: Block, id: nat, arbiters: seq<Addr>, contract: Addr, next: World) {
    && id in w.complaints && AcceptedForGood(w.complaints[id], block)
    && arbiters != [] && contract !in w.multisigs && contract in next.multisigs
    && FreshPoll(w, block, id, arbiters, next.multisigs[contract])
    && next == w.(complaints := w.complaints[id := w.complaints[id].(state := Processing(contract))],
                  awaiting := Some(id),
                  multisigs := w.multisigs[contract := next.multisigs[contract]])
  }

  /** The same fee to every voter, in the order of their addresses: two costs, split evenly. */
  ghost predicate FeesFor(voters: map<Addr, nat>, cost: nat, sent: seq<Send>) {
    && |sent| == |voters|
    && (forall i, j :: 0 <= i < j < |sent| ==> sent[i].to < sent[j].to)
    && (forall i :: 0 <= i < |sent| ==> sent[i].to in voters && sent[i].amount == 2 * cost / |sent|)
  }

  /** A multisig does what it does; when it executes, its complaint is closed and its voters are paid. */
  ghost predicate Polled(w: World, call: Call, next: World)
    requires call.message.CallMultisig?
  {
    var contract := call.message.contract;
    && contract in w.multisigs && contract in next.multisigs
    && MR.Transition(w.multisigs[contract], Call(call.block, call.sender, call.message.message),
                     next.multisigs[contract])
    && if !call.message.message.Execute? then
         next == w.(multisigs := w.multisigs[contract := next.multisigs[contract]])
       else
         var id := w.multisigs[contract].config.complaintId;
         && id in w.complaints && w.complaints[id].state == Processing(contract) && id in next.accounts
         && FeesFor(w.multisigs[contract].voters, w.config.disputeCost, next.accounts[id].sent)
         && var n := |w.multisigs[contract].voters|;
            && n > 0 && 2 * w.config.disputeCost / n * n <= w.balance
            && next == w.(
                 multisigs := w.multisigs[contract := next.multisigs[contract]],
                 complaints := w.complaints[id :=
                   w.complaints[id].(state := Closed(call.message.summary, call.message.ipfsLink))],
                 accounts := w.accounts[id := Account(2 * w.config.disputeCost, next.accounts[id].sent, 1)],
                 balance := w.balance - 2 * w.config.disputeCost / n * n)
  }

  ghost predicate Transition(w: World, call: Call, next: World) {
    var block, sender := call.block, call.sender;
    match call.message
    case Donate(amount) => next == w.(balance := w.balance + amount, donated := w.donated + amount)
    case RegisterComplaint(payment, title, description, defendant) =>
      Registered(w, block, sender, payment, title, description, defendant, next)
    case AcceptComplaint(payment, id) => AcceptedBy(w, block, sender, payment, id, next)
    case WithdrawComplaint(id, reason) => WithdrawnBy(w, block, sender, id, reason, next)
    case ProposeArbiters(id, arbiters, contract) => HandedTo(w, block, id, arbiters, contract, next)
    case RenderDecision(_, _, _) => false
    case CallMultisig(_, _, _, _) => Polled(w, call, next)
  }

  // ---------------------------------------------------------------- the pool does what is described

  lemma RegisterConforms(w: World, block: Block, call: Call, next: World)
    requires Inv(w, block) && call.message.RegisterComplaint?
    ensures Handle(w, call) == Ok(next) <==> Transition(w, call, next)
  {
    hide Balanced, PollsFit, HandedOver, AccountFits;
    assert w.config.nextComplaintId !in w.accounts;
  }

  lemma AcceptConforms(w: World, block: Block, call: Call, next: World)
    requires Inv(w, block) && call.message.AcceptComplaint?
    ensures Handle(w, call) == Ok(next) <==> Transition(w, call, next)
  {
    hide Balanced, PollsFit, HandedOver;
  }

  lemma EightyPercent(cost: nat)
    ensures Discounted(cost) == cost * 80 / 100
  {
  }

  lemma WithdrawConforms(w: World, block: Block, call: Call, next: World)
    requires Inv(w, block) && block.NotAfter(call.block) && call.message.WithdrawComplaint?
    ensures Handle(w, call) == Ok(next) <==> Transition(w, call, next)
  {
    hide Balanced, PollsFit, HandedOver, HeldFor, TotalSent, Discounted, AccountFits;
    var id, cost := call.message.id, w.config.disputeCost;
    EightyPercent(cost);
    if id in w.complaints {
      var c := w.complaints[id];
      OneOrTwoSends(Send(c.plaintiff, Discounted(cost)), Send(c.defendant, Discounted(cost)));
      OneOrTwoSends(Send(c.plaintiff, cost), Send(c.plaintiff, cost));
      if Refunds(c, call.block, cost).Ok? {
        WithdrawalPaid(w, call.block, id, call.message.reason);
        assert [] + Refunds(c, call.block, cost).value == Refunds(c, call.block, cost).value;
      }
    }
  }

  lemma NewPollIs(w: World, block: Block, id: nat, arbiters: seq<Addr>, poll: M.Storage)
    requires arbiters != []
    ensures NewMultisig(w, block, id, arbiters) == Ok(poll) <==> FreshPoll(w, block, id, arbiters, poll)
  {
    OneVoterPerArbiter(arbiters);
    assert VotersOf(arbiters) != [];
    var made := NewMultisig(w, block, id, arbiters).value;
    if FreshPoll(w, block, id, arbiters, poll) {
      assert poll.voters.Keys == made.voters.Keys;
      assert poll.voters == made.voters;
    }
  }

  lemma AssignConforms(w: World, call: Call, next: World)
    requires call.message.ProposeArbiters?
    ensures Handle(w, call) == Ok(next) <==> Transition(w, call, next)
  {
    hide NewMultisig, FreshPoll;
    var id, arbiters := call.message.id, call.message.arbiters;
    NewMultisigIff(w, call.block, id, arbiters);
    if arbiters != [] {
      NewPollIs(w, call.block, id, arbiters, NewMultisig(w, call.block, id, arbiters).value);
      if call.message.contract in next.multisigs {
        NewPollIs(w, call.block, id, arbiters, next.multisigs[call.message.contract]);
      }
    }
  }

  lemma FeesAre(voters: map<Addr, nat>, cost: nat, sent: seq<Send>)
    requires voters.Keys != {}
    ensures FeesFor(voters, cost, sent) <==> sent == DecisionFees(voters, cost)
  {
    hide Ascending;
    var members := Ascending(voters.Keys);
    forall i | 0 <= i < |members| ensures members[i] in voters {
      assert members[i] in members;
    }
    if FeesFor(voters, cost, sent) {
      var to := seq(|sent|, i requires 0 <= i < |sent| => sent[i].to);
      SameRecipients(voters, to);
      assert forall i :: 0 <= i < |sent| ==> to[i] == members[i];
    }
  }

  /** So many ascending voters are all of them. */
  lemma SameRecipients(voters: map<Addr, nat>, to: seq<Addr>)
    requires |to| == |voters| && StrictlyAscending(to) && forall i :: 0 <= i < |to| ==> to[i] in voters
    ensures to == Ascending(voters.Keys)
  {
    hide Ascending;
    DistinctSize(to);
    FullSubset(Elements(to), voters.Keys);
    AscendingUnique(to, Ascending(voters.Keys));
  }

  function Elements(list: seq<Addr>): set<Addr> {
    set a | a in list
  }

  lemma {:induction false} DistinctSize(list: seq<Addr>)
    requires StrictlyAscending(list)
    ensures |Elements(list)| == |list|
    decreases |list|
  {
    if list == [] {
    } else {
      var init, last := list[..|list| - 1], list[|list| - 1];
      DistinctSize(init);
      assert forall i :: 0 <= i < |init| ==> init[i] == list[i] && init[i] < last;
      assert forall a :: a in list <==> a in init || a == last;
      assert Elements(list) == Elements(init) + {last};
    }
  }

  lemma FullSubset(one: set<Addr>, all: set<Addr>)
    requires one <= all && |one| == |all|
    ensures one == all
  {
    assert one + (all - one) == all;
    assert |all - one| == 0;
  }

  lemma ExecuteConforms(w: World, block: Block, call: Call, next: World)
    requires Inv(w, block) && block.NotAfter(call.block)
    requires call.message.CallMultisig? && call.message.message.Execute?
    ensures Handle(w, call) == Ok(next) <==> Transition(w, call, next)
  {
    hide Inv, M.Handle, MR.Transition, TotalSent, Ascending, FeeEach, Fees, DecisionFees, FeesFor, Render;
    var contract := call.message.contract;
    if contract in w.multisigs {
      var poll := Call(call.block, call.sender, M.Execute);
      forall m
        ensures M.Handle(w.multisigs[contract], poll) == Ok(m) <==> MR.Transition(w.multisigs[contract], poll, m)
      {
        MR.HandleConforms(w.multisigs[contract], poll, m);
      }
      if M.Handle(w.multisigs[contract], poll).Ok? {
        ExecutionDelivers(w, block, call);
        ExecutionIs(w, block, call, M.Handle(w.multisigs[contract], poll).value, next);
      }
    }
  }

  /** The outcome of an execution, with its fees written out. */
  lemma ExecutionIs(w: World, block: Block, call: Call, m: M.Storage, next: World)
    requires Inv(w, block) && block.NotAfter(call.block)
    requires call.message.CallMultisig? && call.message.message.Execute? && call.message.contract in w.multisigs
    requires M.Handle(w.multisigs[call.message.contract], Call(call.block, call.sender, M.Execute)) == Ok(m)
    requires m.config.complaintId in w.complaints && m.voters.Keys != {}
    requires forall t :: MR.Transition(w.multisigs[call.message.contract], Call(call.block, call.sender, M.Execute), t)
                     <==> t == m
    ensures next == Decided(w, call.message.contract, m, call.message.summary, call.message.ipfsLink)
        <==> Polled(w, call, next)
  {
    hide MP.Inv, M.Handle, MR.Transition, TotalSent, Ascending, FeeEach, Fees, DecisionFees, FeesFor, AccountsFit,
        Balanced, PollsFit, HandedOver;
    var contract, cost := call.message.contract, w.config.disputeCost;
    var id := m.config.complaintId;
    PollInv(w, block, contract);
    PollStep(w.multisigs[contract], block, Call(call.block, call.sender, M.Execute));
    FeesCovered(w, block, contract);
    FeesTotalled(m.voters, cost);
    FeesAre(m.voters, cost, DecisionFees(m.voters, cost));
    if id in next.accounts {
      FeesAre(m.voters, cost, next.accounts[id].sent);
    }
  }

  lemma FeesTotalled(voters: map<Addr, nat>, cost: nat)
    requires voters.Keys != {}
    ensures |voters| > 0 && TotalSent(DecisionFees(voters, cost)) == 2 * cost / |voters| * |voters|
  {
    hide Ascending, TotalSent;
    FeesTotal(Ascending(voters.Keys), FeeEach(cost, |voters|));
  }

  lemma VoteOrCloseConforms(w: World, call: Call, next: World)
    requires call.message.CallMultisig? && !call.message.message.Execute?
    ensures Handle(w, call) == Ok(next) <==> Transition(w, call, next)
  {
    hide M.Handle, MR.Transition, Render;
    var contract := call.message.contract;
    if contract in w.multisigs {
      var poll := Call(call.block, call.sender, call.message.message);
      forall m
        ensures M.Handle(w.multisigs[contract], poll) == Ok(m) <==> MR.Transition(w.multisigs[contract], poll, m)
      {
        MR.HandleConforms(w.multisigs[contract], poll, m);
      }
    }
  }

  /** In every state of the invariant, a message is accepted and leaves `next` if and only if the reference
      has it so. */
  lemma HandleConforms(w: World, block: Block, call: Call, next: World)
    requires Inv(w, block) && block.NotAfter(call.block)
    ensures Handle(w, call) == Ok(next) <==> Transition(w, call, next)
  {
    hide Inv, Handle, Transition;
    match call.message
    case Donate(_) => DonateConforms(w, call, next);
    case RegisterComplaint(_, _, _, _) => RegisterConforms(w, block, call, next);
    case AcceptComplaint(_, _) => AcceptConforms(w, block, call, next);
    case WithdrawComplaint(_, _) => WithdrawConforms(w, block, call, next);
    case ProposeArbiters(_, _, _) => AssignConforms(w, call, next);
    case RenderDecision(_, _, _) => RenderConforms(w, block, call, next);
    case CallMultisig(_, message, _, _) =>
      if message.Execute? {
        ExecuteConforms(w, block, call, next);
      } else {
        VoteOrCloseConforms(w, call, next);
      }
  }

  lemma DonateConforms(w: World, call: Call, next: World)
    requires call.message.Donate?
    ensures Handle(w, call) == Ok(next) <==> Transition(w, call, next)
  {
  }

  lemma RenderConforms(w: World, block: Block, call: Call, next: World)
    requires Inv(w, block) && call.message.RenderDecision?
    ensures Handle(w, call) == Ok(next) <==> Transition(w, call, next)
  {
    hide Inv, Handle;
    DirectRenderFails(w, block, call);
  }

  /** After every run, the next message does what the reference says. */
  lemma ReachableConforms(self: Addr, disputeCost: nat, waitingPeriod: nat, block: Block, calls: seq<Call>, call: Call,
                          next: World)
    requires Ordered(block, calls) && LastBlock(block, calls).NotAfter(call.block)
    ensures
      var w := Run(Start(self, disputeCost, waitingPeriod), calls);
      Handle(w, call) == Ok(next) <==> Transition(w, call, next)
  {
    hide Inv, Handle, Run, Transition, Ordered;
    StartKeeps(self, disputeCost, waitingPeriod, block);
    RunKeeps(Start(self, disputeCost, waitingPeriod), block, calls);
    HandleConforms(Run(Start(self, disputeCost, waitingPeriod), calls), LastBlock(block, calls), call, next);
  }
}
