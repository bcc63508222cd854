/**
 What every run of the arbiter pool keeps: the books balance, the pool can always pay what it
 still owes, and each complaint being processed is in the hands of exactly one live multisig.
 */
module ComplaintProofs {
  import opened Base
  import opened Sums
  import opened Voting
  import M = Multisig
  import MP = MultisigProofs
  import opened Complaints

  // ---------------------------------------------------------------- the invariant

  /** What a complaint has brought in and paid out agrees with its state. */
  ghost predicate AccountFits(c: Complaint, account: Account, cost: nat) {
    match c.state
    case Initiated(_) => account == Account(cost, [], 0)
    case Waiting(_) => account == Account(2 * cost, [], 0)
    case Processing(_) => account == Account(2 * cost, [], 0)
    case Withdrawn(_) =>
      || account == Account(cost, [Send(c.plaintiff, Discounted(cost))], 1)
      || account == Account(cost, [Send(c.plaintiff, cost)], 1)
      || account == Account(2 * cost, [Send(c.plaintiff, Discounted(cost)), Send(c.defendant, Discounted(cost))], 1)
    case Closed(_, _) => account.paidIn == 2 * cost && account.payouts == 1 && TotalSent(account.sent) <= 2 * cost
    case Aborted => false
    case Accepted => false
  }

  ghost function HeldFor(account: Account): int {
    account.paidIn - TotalSent(account.sent)
  }

  ghost function Held(accounts: map<nat, Account>): map<nat, int> {
    map id | id in accounts :: HeldFor(accounts[id])
  }

  ghost predicate AccountsFit(w: World) {
    && w.accounts.Keys == w.complaints.Keys
    && (forall id :: id in w.complaints ==> id < w.config.nextComplaintId)
    && (forall id :: id in w.complaints ==> AccountFits(w.complaints[id], w.accounts[id], w.config.disputeCost))
  }

  /** The tokens held are the donations and what each complaint has left. */
  ghost predicate Balanced(w: World) {
    w.balance == w.donated + Sum(Held(w.accounts))
  }

  /** A multisig works on a complaint in processing, or has decided and is paid. */
  ghost predicate PollFits(w: World, block: Block, a: Addr)
    requires a in w.multisigs
  {
    var m := w.multisigs[a];
    var id := m.config.complaintId;
    && MP.Inv(m, block)
    && m.voters.Keys != {}
    && id in w.complaints && id in w.accounts
    && (if m.decisions == 0 then w.complaints[id].state == Processing(a)
        else w.complaints[id].state.Closed?
             && w.accounts[id].sent == DecisionFees(m.voters, w.config.disputeCost))
  }

  /** Two dispute costs, split evenly among the voters of a multisig. */
  ghost function DecisionFees(voters: map<Addr, nat>, cost: nat): seq<Send>
    requires voters.Keys != {}
  {
    var members := Ascending(voters.Keys);
    Fees(members, FeeEach(cost, |members|))
  }

  ghost predicate PollsFit(w: World, block: Block) {
    forall a :: a in w.multisigs ==> PollFits(w, block, a)
  }

  /** A complaint in processing has its multisig, and one is closed only by a multisig. */
  ghost predicate HandedOver(w: World) {
    && (forall id :: id in w.complaints && w.complaints[id].state.Processing? ==>
          w.complaints[id].state.arbiters in w.multisigs
          && w.multisigs[w.complaints[id].state.arbiters].config.complaintId == id)
    && (forall id :: id in w.complaints && w.complaints[id].state.Closed? ==>
          exists a :: a in w.multisigs && w.multisigs[a].config.complaintId == id)
  }

  ghost predicate Inv(w: World, block: Block) {
    AccountsFit(w) && Balanced(w) && PollsFit(w, block) && HandedOver(w)
  }

  // ---------------------------------------------------------------- money

  lemma {:induction false} FeesTotal(members: seq<Addr>, fee: nat)
    ensures TotalSent(Fees(members, fee)) == fee * |members|
    decreases |members|
  {
    var sends := Fees(members, fee);
    if members == [] {
    } else {
      var init := members[..|members| - 1];
      FeesTotal(init, fee);
      assert sends[..|members| - 1] == Fees(init, fee);
      Distribute(fee, |init|, 1);
    }
  }

  /** Splitting loses less than one unit per voter and never pays more than there is. */
  lemma FeeSplit(cost: nat, members: seq<Addr>)
    requires members != []
    ensures
      var total := TotalSent(Fees(members, FeeEach(cost, |members|)));
      2 * cost - |members| < total <= 2 * cost
  {
    var n := |members|;
    FeesTotal(members, FeeEach(cost, n));
    assert 2 * cost == FeeEach(cost, n) * n + 2 * cost % n;
  }

  lemma DiscountedIsLess(cost: nat)
    ensures Discounted(cost) <= cost
  {
  }

  lemma OneOrTwoSends(x: Send, y: Send)
    ensures TotalSent([x]) == x.amount
    ensures TotalSent([x, y]) == x.amount + y.amount
  {
    assert [x, y][..1] == [x];
    assert [x][..0] == [];
  }

  /** A fitting account is never overdrawn. */
  lemma HeldNonNegative(c: Complaint, account: Account, cost: nat)
    requires AccountFits(c, account, cost)
    ensures HeldFor(account) >= 0
  {
    DiscountedIsLess(cost);
    OneOrTwoSends(Send(c.plaintiff, Discounted(cost)), Send(c.defendant, Discounted(cost)));
    OneOrTwoSends(Send(c.plaintiff, cost), Send(c.plaintiff, cost));
  }

  /** What is held for one complaint is there to be paid. */
  lemma Covered(w: World, id: nat, amount: int)
    requires AccountsFit(w) && Balanced(w) && id in w.accounts && amount <= HeldFor(w.accounts[id])
    ensures amount <= w.balance
  {
    forall i | i in w.accounts ensures Held(w.accounts)[i] >= 0 {
      HeldNonNegative(w.complaints[i], w.accounts[i], w.config.disputeCost);
    }
    SumAtLeastEntry(Held(w.accounts), id);
  }

  /** Changing one complaint and its account, with the balance following, keeps the books. */
  lemma BooksChange(w: World, next: World, id: nat, c: Complaint, account: Account)
    requires AccountsFit(w) && Balanced(w)
    requires next.complaints == w.complaints[id := c] && next.accounts == w.accounts[id := account]
    requires next.config.disputeCost == w.config.disputeCost && next.donated == w.donated
    requires w.config.nextComplaintId <= next.config.nextComplaintId && id < next.config.nextComplaintId
    requires AccountFits(c, account, w.config.disputeCost)
    requires next.balance == w.balance + HeldFor(account) - HeldFor(AccountOf(w, id))
    ensures AccountsFit(next) && Balanced(next)
  {
    hide AccountFits, HeldFor, Held;
    SumHeld(w.accounts, id, account);
  }

  lemma SumHeld(accounts: map<nat, Account>, id: nat, account: Account)
    ensures Sum(Held(accounts[id := account])) ==
      Sum(Held(accounts)) + HeldFor(account) - (if id in accounts then HeldFor(accounts[id]) else HeldFor(NO_ACCOUNT))
  {
    hide Sum, TotalSent, HeldFor;
    NothingHeld();
    SumUpdate(Held(accounts), id, HeldFor(account));
    assert Held(accounts[id := account]) == Held(accounts)[id := HeldFor(account)];
  }

  lemma HeldAfterReceipt(account: Account, payment: nat)
    ensures HeldFor(account.(paidIn := account.paidIn + payment)) == HeldFor(account) + payment
  {
  }

  lemma HeldAfterPaying(account: Account, sends: seq<Send>, payouts: nat)
    requires account.sent == []
    ensures account.sent + sends == sends
    ensures HeldFor(account.(sent := sends, payouts := payouts)) == HeldFor(account) - TotalSent(sends)
  {
  }

  lemma NothingHeld()
    ensures HeldFor(NO_ACCOUNT) == 0
  {
  }

  // ---------------------------------------------------------------- each operation keeps the invariant

  /** While no multisig is concerned, all of them still fit. */
  lemma PollsUntouched(w: World, next: World, block: Block, later: Block, id: nat, c: Complaint)
    requires PollsFit(w, block) && HandedOver(w) && block.NotAfter(later)
    requires next.multisigs == w.multisigs && next.complaints == w.complaints[id := c]
    requires next.config.disputeCost == w.config.disputeCost
    requires forall j :: j in w.accounts && j != id ==> j in next.accounts && next.accounts[j] == w.accounts[j]
    requires id in w.complaints ==> !w.complaints[id].state.Processing? && !w.complaints[id].state.Closed?
    requires !c.state.Processing? && !c.state.Closed?
    ensures PollsFit(next, later) && HandedOver(next)
  {
    hide MP.Inv, DecisionFees;
    forall a | a in next.multisigs ensures PollFits(next, later, a) {
      assert PollFits(w, block, a);
      MP.InvLater(w.multisigs[a], block, later);
    }
  }

  lemma PollsLater(w: World, block: Block, later: Block)
    requires PollsFit(w, block) && block.NotAfter(later)
    ensures PollsFit(w, later)
  {
    hide MP.Inv, DecisionFees;
    forall a | a in w.multisigs ensures PollFits(w, later, a) {
      assert PollFits(w, block, a);
      MP.InvLater(w.multisigs[a], block, later);
    }
  }

  lemma RegisterKeeps(w: World, block: Block, call: Call)
    requires Inv(w, block) && block.NotAfter(call.block) && call.message.RegisterComplaint?
    ensures Handle(w, call).Ok? ==> Inv(Handle(w, call).value, call.block)
  {
    hide Balanced, PollsFit, HandedOver, HeldFor;
    var r := Handle(w, call);
    if r.Ok? {
      var next, id := r.value, w.config.nextComplaintId;
      HeldAfterReceipt(AccountOf(w, id), call.message.payment);
      BooksChange(w, next, id, next.complaints[id], next.accounts[id]);
      PollsUntouched(w, next, block, call.block, id, next.complaints[id]);
    }
  }

  lemma AcceptKeeps(w: World, block: Block, call: Call)
    requires Inv(w, block) && block.NotAfter(call.block) && call.message.AcceptComplaint?
    ensures Handle(w, call).Ok? ==> Inv(Handle(w, call).value, call.block)
  {
    hide Balanced, PollsFit, HandedOver, HeldFor;
    var r := Handle(w, call);
    if r.Ok? {
      var next, id := r.value, call.message.id;
      HeldAfterReceipt(AccountOf(w, id), call.message.payment);
      BooksChange(w, next, id, next.complaints[id], next.accounts[id]);
      PollsUntouched(w, next, block, call.block, id, next.complaints[id]);
    }
  }

  /** A withdrawal that is in order is also paid. */
  lemma WithdrawalPaid(w: World, block: Block, id: nat, reason: string)
    requires AccountsFit(w) && Balanced(w) && id in w.complaints
    requires Refunds(w.complaints[id], block, w.config.disputeCost).Ok?
    ensures
      var c := w.complaints[id];
      var sends := Refunds(c, block, w.config.disputeCost).value;
      && w.accounts[id].sent == [] && w.accounts[id].payouts == 0
      && AccountFits(c.(state := Withdrawn(reason)), w.accounts[id].(sent := sends, payouts := 1), w.config.disputeCost)
      && TotalSent(sends) <= w.balance
  {
    var c, cost := w.complaints[id], w.config.disputeCost;
    var sends := Refunds(c, block, cost).value;
    DiscountedIsLess(cost);
    OneOrTwoSends(Send(c.plaintiff, Discounted(cost)), Send(c.defendant, Discounted(cost)));
    OneOrTwoSends(Send(c.plaintiff, cost), Send(c.plaintiff, cost));
    Covered(w, id, TotalSent(sends));
  }

  lemma WithdrawKeeps(w: World, block: Block, call: Call)
    requires Inv(w, block) && block.NotAfter(call.block) && call.message.WithdrawComplaint?
    ensures Handle(w, call) != Err(InsufficientBalance)
    ensures Handle(w, call).Ok? ==> Inv(Handle(w, call).value, call.block)
  {
    hide Balanced, PollsFit, HandedOver, HeldFor, TotalSent;
    var id := call.message.id;
    if id in w.complaints && Refunds(w.complaints[id], call.block, w.config.disputeCost).Ok? {
      WithdrawalPaid(w, call.block, id, call.message.reason);
      var r := Handle(w, call);
      if r.Ok? {
        var next := r.value;
        HeldAfterPaying(w.accounts[id], Refunds(w.complaints[id], call.block, w.config.disputeCost).value, 1);
        BooksChange(w, next, id, next.complaints[id], next.accounts[id]);
        PollsUntouched(w, next, block, call.block, id, next.complaints[id]);
      }
    }
  }

  /** The stored voters are the arbiters named, each once, with weight one. */
  lemma {:induction false} OneVoterPerArbiter(arbiters: seq<Addr>)
    ensures M.VoterTable(VotersOf(arbiters)).Keys == (set a | a in arbiters)
    ensures forall a :: a in M.VoterTable(VotersOf(arbiters)) ==> M.VoterTable(VotersOf(arbiters))[a] == 1
    ensures M.TotalWeight(VotersOf(arbiters)) == |arbiters|
    decreases |arbiters|
  {
    if arbiters == [] {
    } else {
      var init, last := arbiters[..|arbiters| - 1], arbiters[|arbiters| - 1];
      OneVoterPerArbiter(init);
      assert VotersOf(arbiters)[..|arbiters| - 1] == VotersOf(init);
      assert forall a :: a in arbiters <==> a in init || a == last;
    }
  }

  /** Any non-empty list of arbiters gives a multisig, fresh and empty of ballots. */
  lemma NewMultisigIff(w: World, block: Block, id: nat, arbiters: seq<Addr>)
    ensures
      var r := NewMultisig(w, block, id, arbiters);
      && (r.Ok? <==> arbiters != [])
      && (r.Ok? ==>
            && MP.Inv(r.value, block)
            && r.value.voters.Keys == (set a | a in arbiters) && r.value.voters.Keys != {}
            && r.value.config.complaintId == id
            && r.value.decisions == 0 && r.value.ballots == map[] && r.value.status == Open)
  {
    hide MP.Inv;
    OneVoterPerArbiter(arbiters);
    if arbiters != [] {
      assert VotersOf(arbiters) != [];
      assert arbiters[0] in M.VoterTable(VotersOf(arbiters)).Keys;
      MP.InstantiateEstablishesInv(block, w.self, VotersOf(arbiters), AbsoluteCount(PassWeight(arbiters)),
                                   Duration.Time(w.config.waitingPeriod), id);
    }
  }

  /** Handing an accepted complaint to a new multisig keeps the polls in order. */
  lemma PollsWithNew(w: World, next: World, block: Block, id: nat, contract: Addr)
    requires PollsFit(w, block) && HandedOver(w)
    requires id in w.complaints && !w.complaints[id].state.Processing? && !w.complaints[id].state.Closed?
    requires contract !in w.multisigs && contract in next.multisigs
    requires next.multisigs == w.multisigs[contract := next.multisigs[contract]]
    requires next.complaints == w.complaints[id := w.complaints[id].(state := Processing(contract))]
    requires next.accounts == w.accounts && next.config == w.config
    requires next.multisigs[contract].config.complaintId == id && PollFits(next, block, contract)
    ensures PollsFit(next, block) && HandedOver(next)
  {
    hide MP.Inv, DecisionFees;
    forall a | a in next.multisigs ensures PollFits(next, block, a) {
      if a != contract {
        assert PollFits(w, block, a);
      }
    }
    forall i | i in next.complaints && next.complaints[i].state.Closed?
      ensures exists a :: a in next.multisigs && next.multisigs[a].config.complaintId == i
    {
      var a :| a in w.multisigs && w.multisigs[a].config.complaintId == i;
      assert a in next.multisigs;
    }
  }

  lemma AssignKeeps(w: World, block: Block, call: Call)
    requires Inv(w, block) && block.NotAfter(call.block) && call.message.ProposeArbiters?
    ensures Handle(w, call).Ok? ==> Inv(Handle(w, call).value, call.block)
  {
    hide Balanced, PollsFit, HandedOver, NewMultisig, MP.Inv, DecisionFees;
    var id, contract := call.message.id, call.message.contract;
    NewMultisigIff(w, call.block, id, call.message.arbiters);
    PollsLater(w, block, call.block);
    var r := Handle(w, call);
    if r.Ok? {
      var next := r.value;
      assert AccountFits(w.complaints[id], w.accounts[id], w.config.disputeCost);
      assert AccountFits(next.complaints[id], next.accounts[id], w.config.disputeCost);
      assert next.accounts == w.accounts[id := w.accounts[id]];
      BooksChange(w, next, id, next.complaints[id], next.accounts[id]);
      PollsWithNew(w, next, call.block, id, contract);
    }
  }

  /** No account but a multisig's can render a decision. */
  lemma OnlyMultisigsRender(w: World, block: Block, sender: Addr, id: nat, summary: string, ipfsLink: string)
    requires Inv(w, block) && sender !in w.multisigs
    ensures Render(w, sender, id, summary, ipfsLink).Err?
    ensures Render(w, sender, id, summary, ipfsLink).error in {ComplaintMissing, Unauthorized, ImproperState}
  {
    hide AccountsFit, Balanced, PollsFit;
  }

  /** Only execution renders, and it can happen only before any decision. */
  lemma PollStep(m: M.Storage, block: Block, call: M.Call)
    requires MP.Inv(m, block) && block.NotAfter(call.block)
    ensures
      var r := M.Handle(m, call);
      r.Ok? ==>
        && MP.Inv(r.value, call.block) && r.value.config == m.config && r.value.voters == m.voters
        && (if call.message.Execute? then m.decisions == 0 && r.value.decisions == 1
            else r.value.decisions == m.decisions)
  {
    MP.HandleKeepsInv(m, block, call);
  }

  /** A vote or a closing changes the multisig alone. */
  lemma PollsAfterVote(w: World, next: World, block: Block, contract: Addr)
    requires PollsFit(w, block) && HandedOver(w) && contract in w.multisigs && contract in next.multisigs
    requires next == w.(multisigs := w.multisigs[contract := next.multisigs[contract]])
    requires next.multisigs[contract].config == w.multisigs[contract].config
    requires PollFits(next, block, contract)
    ensures PollsFit(next, block) && HandedOver(next)
  {
    hide MP.Inv, DecisionFees;
    forall a | a in next.multisigs ensures PollFits(next, block, a) {
      assert PollFits(w, block, a);
    }
    HandedOverAfterCall(w, next, contract);
  }

  /** A decision concerns no other multisig: no other one works on the complaint. */
  lemma PollsAfterDecision(w: World, next: World, block: Block, contract: Addr, id: nat, c: Complaint, account: Account)
    requires PollsFit(w, block) && HandedOver(w) && contract in w.multisigs && contract in next.multisigs
    requires next.multisigs == w.multisigs[contract := next.multisigs[contract]]
    requires next.multisigs[contract].config == w.multisigs[contract].config
    requires w.multisigs[contract].config.complaintId == id
    requires next.config == w.config
    requires next.complaints == w.complaints[id := c] && next.accounts == w.accounts[id := account]
    requires id in w.complaints && w.complaints[id].state == Processing(contract) && c.state.Closed?
    requires PollFits(next, block, contract)
    ensures PollsFit(next, block) && HandedOver(next)
  {
    hide MP.Inv, DecisionFees, HandedOver;
    forall a | a in next.multisigs ensures PollFits(next, block, a) {
      assert PollFits(w, block, a);
    }
    HandedOverAfterCall(w, next, contract);
  }

  lemma HandedOverAfterCall(w: World, next: World, contract: Addr)
    requires HandedOver(w) && contract in w.multisigs && contract in next.multisigs
    requires next.multisigs == w.multisigs[contract := next.multisigs[contract]]
    requires next.multisigs[contract].config == w.multisigs[contract].config
    requires next.complaints.Keys == w.complaints.Keys
    requires
      var id := w.multisigs[contract].config.complaintId;
      forall i :: i in w.complaints && next.complaints[i].state != w.complaints[i].state ==>
          i == id && next.complaints[i].state.Closed?
    ensures HandedOver(next)
  {
    forall i | i in next.complaints && next.complaints[i].state.Closed?
      ensures exists a :: a in next.multisigs && next.multisigs[a].config.complaintId == i
    {
      if w.complaints[i].state.Closed? {
        var a :| a in w.multisigs && w.multisigs[a].config.complaintId == i;
        assert a in next.multisigs && next.multisigs[a].config.complaintId == i;
      } else {
        assert contract in next.multisigs && next.multisigs[contract].config.complaintId == i;
      }
    }
  }

  /** What an execution leads to: the complaint closed, and its voters paid. */
  ghost function Decided(w: World, contract: Addr, m: M.Storage, summary: string, ipfsLink: string): World
    requires m.config.complaintId in w.complaints && m.voters.Keys != {}
  {
    var id := m.config.complaintId;
    var fees := DecisionFees(m.voters, w.config.disputeCost);
    var left := w.balance - TotalSent(fees);
    w.(multisigs := w.multisigs[contract := m],
       complaints := w.complaints[id := w.complaints[id].(state := Closed(summary, ipfsLink))],
       accounts := w.accounts[id := Account(2 * w.config.disputeCost, fees, 1)],
       balance := if left >= 0 then left else 0)
  }

  /** A complaint in the hands of a live multisig has both costs untouched, enough for the fees. */
  lemma FeesCovered(w: World, block: Block, contract: Addr)
    requires Inv(w, block) && contract in w.multisigs && w.multisigs[contract].decisions == 0
    ensures
      var m := w.multisigs[contract];
      var id, cost := m.config.complaintId, w.config.disputeCost;
      && PollFits(w, block, contract)
      && w.complaints[id].state == Processing(contract)
      && w.accounts[id] == Account(2 * cost, [], 0)
      && TotalSent(DecisionFees(m.voters, cost)) <= 2 * cost
      && TotalSent(DecisionFees(m.voters, cost)) <= w.balance
  {
    hide MP.Inv, Ascending, FeeEach, Fees, TotalSent, Balanced;
    var m, cost := w.multisigs[contract], w.config.disputeCost;
    assert PollFits(w, block, contract);
    var id := m.config.complaintId;
    assert AccountFits(w.complaints[id], w.accounts[id], cost);
    FeeSplit(cost, Ascending(m.voters.Keys));
    HeldUntouched(w.accounts[id]);
    Covered(w, id, TotalSent(DecisionFees(m.voters, cost)));
  }

  lemma HeldUntouched(account: Account)
    requires account.sent == []
    ensures HeldFor(account) == account.paidIn
  {
  }

  /** A decision is rendered exactly by the multisig that works on the complaint: not by another
      multisig, nor by any other account. */
  lemma OnlyItsMultisigRenders(w: World, block: Block, sender: Addr, id: nat, summary: string, ipfsLink: string)
    requires Inv(w, block)
    ensures Render(w, sender, id, summary, ipfsLink).Ok? <==>
      id in w.complaints && w.complaints[id].state == Processing(sender)
  {
    hide Ascending, FeeEach, Fees, TotalSent, MP.Inv, AccountsFit, Balanced;
    if id in w.complaints && w.complaints[id].state == Processing(sender) {
      PollInv(w, block, sender);
      FeesCovered(w, block, sender);
      assert Ascending(w.multisigs[sender].voters.Keys) != [];
    }
  }

  /** When a multisig executes, the pool accepts its decision: nothing can make the callback fail. */
  lemma ExecutionDelivers(w: World, block: Block, call: Call)
    requires Inv(w, block) && block.NotAfter(call.block)
    requires call.message.CallMultisig? && call.message.message.Execute?
    requires call.message.contract in w.multisigs
    requires M.Handle(w.multisigs[call.message.contract], Call(call.block, call.sender, M.Execute)).Ok?
    ensures
      var contract := call.message.contract;
      var m := M.Handle(w.multisigs[contract], Call(call.block, call.sender, M.Execute)).value;
      && m.config.complaintId in w.complaints && m.voters.Keys != {}
      && Handle(w, call) == Ok(Decided(w, contract, m, call.message.summary, call.message.ipfsLink))
  {
    hide MP.Inv, Ascending, FeeEach, Fees, TotalSent, AccountsFit, Balanced, PollsFit, HandedOver, M.Handle;
    var contract := call.message.contract;
    PollInv(w, block, contract);
    PollStep(w.multisigs[contract], block, Call(call.block, call.sender, M.Execute));
    var m := M.Handle(w.multisigs[contract], Call(call.block, call.sender, M.Execute)).value;
    FeesCovered(w, block, contract);
    var id, fees := m.config.complaintId, DecisionFees(m.voters, w.config.disputeCost);
    assert [] + fees == fees;
    assert Ascending(m.voters.Keys) != [];
  }

  lemma PollInv(w: World, block: Block, contract: Addr)
    requires PollsFit(w, block) && contract in w.multisigs
    ensures PollFits(w, block, contract)
  {
  }

  lemma ExecutionKeeps(w: World, block: Block, call: Call)
    requires Inv(w, block) && block.NotAfter(call.block)
    requires call.message.CallMultisig? && call.message.message.Execute?
    requires call.message.contract in w.multisigs
    requires M.Handle(w.multisigs[call.message.contract], Call(call.block, call.sender, M.Execute)).Ok?
    ensures Handle(w, call).Ok? && Inv(Handle(w, call).value, call.block)
  {
    hide MP.Inv, Ascending, FeeEach, Fees, TotalSent, Balanced, PollsFit, HandedOver, M.Handle, DecisionFees,
        HeldFor, Handle;
    ExecutionDelivers(w, block, call);
    var contract := call.message.contract;
    PollInv(w, block, contract);
    PollStep(w.multisigs[contract], block, Call(call.block, call.sender, M.Execute));
    FeesCovered(w, block, contract);
    var next := Handle(w, call).value;
    var id := w.multisigs[contract].config.complaintId;
    assert AccountFits(next.complaints[id], next.accounts[id], w.config.disputeCost);
    HeldAfterPaying(w.accounts[id], next.accounts[id].sent, 1);
    BooksChange(w, next, id, next.complaints[id], next.accounts[id]);
    PollsLater(w, block, call.block);
    PollsAfterDecision(w, next, call.block, contract, id, next.complaints[id], next.accounts[id]);
  }

  lemma VoteOrCloseKeeps(w: World, block: Block, call: Call)
    requires Inv(w, block) && block.NotAfter(call.block)
    requires call.message.CallMultisig? && !call.message.message.Execute?
    ensures Handle(w, call).Ok? ==> Inv(Handle(w, call).value, call.block)
  {
    hide MP.Inv, DecisionFees, Balanced, PollsFit, HandedOver, M.Handle, Held, AccountFits;
    var contract := call.message.contract;
    if contract in w.multisigs && Handle(w, call).Ok? {
      PollInv(w, block, contract);
      PollStep(w.multisigs[contract], block, Call(call.block, call.sender, call.message.message));
      var next := Handle(w, call).value;
      PollsLater(w, block, call.block);
      PollsAfterVote(w, next, call.block, contract);
      SameBalance(w, next);
    }
  }

  lemma SameBalance(w: World, next: World)
    requires Balanced(w) && next.balance - next.donated == w.balance - w.donated && next.accounts == w.accounts
    ensures Balanced(next)
  {
  }

  lemma DonateKeeps(w: World, block: Block, call: Call)
    requires Inv(w, block) && block.NotAfter(call.block) && call.message.Donate?
    ensures Handle(w, call).Ok? && Inv(Handle(w, call).value, call.block)
  {
    hide MP.Inv, DecisionFees, Balanced, PollsFit, AccountFits;
    var next := Handle(w, call).value;
    SameBalance(w, next);
    PollsLater(w, block, call.block);
    DonatedPolls(w, next, call.block);
  }

  lemma DonatedPolls(w: World, next: World, block: Block)
    requires PollsFit(w, block) && next == w.(balance := next.balance, donated := next.donated)
    ensures PollsFit(next, block)
  {
    hide MP.Inv, DecisionFees;
    forall a | a in next.multisigs ensures PollFits(next, block, a) {
      assert PollFits(w, block, a);
    }
  }

  /** Every message keeps the invariant. */
  lemma HandleKeeps(w: World, block: Block, call: Call)
    requires Inv(w, block) && block.NotAfter(call.block)
    ensures Handle(w, call).Ok? ==> Inv(Handle(w, call).value, call.block)
  {
    hide Inv, Handle;
    match call.message
    case Donate(_) => DonateKeeps(w, block, call);
    case RegisterComplaint(_, _, _, _) => RegisterKeeps(w, block, call);
    case AcceptComplaint(_, _) => AcceptKeeps(w, block, call);
    case WithdrawComplaint(_, _) => WithdrawKeeps(w, block, call);
    case ProposeArbiters(_, _, _) => AssignKeeps(w, block, call);
    case RenderDecision(_, _, _) => DirectRenderFails(w, block, call);
    case CallMultisig(contract, message, _, _) =>
      if message.Execute? {
        ExecuteCallKeeps(w, block, call);
      } else {
        VoteOrCloseKeeps(w, block, call);
      }
  }

  lemma DirectRenderFails(w: World, block: Block, call: Call)
    requires Inv(w, block) && call.message.RenderDecision?
    ensures Handle(w, call).Err?
  {
    hide Inv;
    if call.sender !in w.multisigs {
      OnlyMultisigsRender(w, block, call.sender, call.message.id, call.message.summary, call.message.ipfsLink);
    }
  }

  lemma ExecuteCallKeeps(w: World, block: Block, call: Call)
    requires Inv(w, block) && block.NotAfter(call.block)
    requires call.message.CallMultisig? && call.message.message.Execute?
    ensures Handle(w, call).Ok? ==> Inv(Handle(w, call).value, call.block)
  {
    hide Inv, M.Handle;
    var contract := call.message.contract;
    if contract in w.multisigs && M.Handle(w.multisigs[contract], Call(call.block, call.sender, M.Execute)).Ok? {
      ExecutionKeeps(w, block, call);
    }
  }

  lemma StepKeeps(w: World, block: Block, call: Call)
    requires Inv(w, block) && block.NotAfter(call.block)
    ensures Inv(Step(w, call), call.block)
  {
    hide Handle, PollsFit;
    HandleKeeps(w, block, call);
    PollsLater(w, block, call.block);
  }

  /** Every run keeps the invariant. */
  lemma {:induction false} RunKeeps(w: World, block: Block, calls: seq<Call>)
    requires Inv(w, block) && Ordered(block, calls)
    ensures Inv(Run(w, calls), LastBlock(block, calls))
    decreases |calls|
  {
    hide Inv, Step;
    if calls == [] {
    } else {
      StepKeeps(w, block, calls[0]);
      RunKeeps(Step(w, calls[0]), calls[0].block, calls[1..]);
    }
  }

  lemma StartKeeps(self: Addr, disputeCost: nat, waitingPeriod: nat, block: Block)
    ensures Inv(Start(self, disputeCost, waitingPeriod), block)
  {
  }
}
