/**
 Arbiter-pool complaints: a dispute is paid for, accepted, handed to a multisig of arbiters, and
 the fee is split among them when they decide.

 `World` is the pool's storage together with the multisig contracts it created, the tokens it
 holds, and an account of what each complaint brought in and paid out.
 */
module Complaints {
  import opened Base
  import opened Sums
  import opened Voting
  import M = Multisig

  datatype ComplaintState =
    | Initiated(expiration: nat)
    | Waiting(waitOver: nat)
    | Withdrawn(reason: string)
    | Aborted
    | Accepted
    | Processing(arbiters: Addr)
    | Closed(summary: string, ipfsLink: string)

  datatype Complaint = Complaint(
    title: string,
    description: string,
    plaintiff: Addr,
    defendant: Addr,
    state: ComplaintState)
  {
    /** The stored state, moved on if its deadline has passed. */
    function CurrentState(block: Block): ComplaintState {
      match state
      case Initiated(expiration) => if block.time >= expiration then Aborted else state
      case Waiting(waitOver) => if block.time >= waitOver then Accepted else state
      case Withdrawn(_) => state
      case Aborted => state
      case Accepted => state
      case Processing(_) => state
      case Closed(_, _) => state
    }

    function UpdateState(block: Block): Complaint {
      this.(state := CurrentState(block))
    }
  }

  datatype Config = Config(disputeCost: nat, waitingPeriod: nat, nextComplaintId: nat) {
    function Deadline(block: Block): nat {
      block.time + waitingPeriod * NANOS_PER_SECOND
    }
  }

  /** A bank message. */
  datatype Send = Send(to: Addr, amount: nat)

  function TotalSent(sends: seq<Send>): nat {
    if sends == [] then 0 else TotalSent(sends[..|sends| - 1]) + sends[|sends| - 1].amount
  }

  /** What a complaint brought in, what was sent for it, and in how many transactions. */
  datatype Account = Account(paidIn: nat, sent: seq<Send>, payouts: nat)

  const NO_ACCOUNT := Account(0, [], 0)

  datatype Error =
    | InvalidPayment | InvalidDisputePayment | ComplaintMissing | Unauthorized | ImproperState
    | AddressTaken | MultisigFailed | NoSuchContract | DivisionByZero | InsufficientBalance

  datatype World = World(
    self: Addr,
    config: Config,
    complaints: map<nat, Complaint>,
    awaiting: Option<nat>,
    multisigs: map<Addr, M.Storage>,
    accounts: map<nat, Account>,
    donated: nat,
    balance: nat)

  datatype Message =
    | Donate(amount: nat)
    | RegisterComplaint(payment: nat, title: string, description: string, defendant: Addr)
    | AcceptComplaint(payment: nat, id: nat)
    | WithdrawComplaint(id: nat, reason: string)
    | ProposeArbiters(id: nat, arbiters: seq<Addr>, contract: Addr)
    | RenderDecision(id: nat, summary: string, ipfsLink: string)
    | CallMultisig(contract: Addr, message: M.Message, summary: string, ipfsLink: string)

  /** `ProposeArbiters` is the execution of a passed proposal; the chain gives the new multisig its
      address. `CallMultisig` goes to a multisig, whose execution calls back with the decision. */
  type Call = Transaction<Message>

  // ---------------------------------------------------------------- money

  const EIGHTY_PERCENT: Fraction := 800_000_000_000_000_000

  function Discounted(cost: nat): nat {
    cost * EIGHTY_PERCENT / ONE
  }

  function CheckPayment(w: World, payment: nat): Result<(), Error> {
    if payment == 0 then Err(InvalidPayment)
    else if payment != w.config.disputeCost then Err(InvalidDisputePayment)
    else Ok(())
  }

  function AccountOf(w: World, id: nat): Account {
    if id in w.accounts then w.accounts[id] else NO_ACCOUNT
  }

  /** The contract receives the payment for a complaint. */
  function Receive(w: World, id: nat, payment: nat): World {
    var before := AccountOf(w, id);
    w.(accounts := w.accounts[id := before.(paidIn := before.paidIn + payment)], balance := w.balance + payment)
  }

  /** The contract sends all of `sends` on account of a complaint, or fails. */
  function Pay(w: World, id: nat, sends: seq<Send>): Result<World, Error> {
    if w.balance < TotalSent(sends) then Err(InsufficientBalance)
    else
      var before := AccountOf(w, id);
      Ok(w.(accounts := w.accounts[id := before.(sent := before.sent + sends, payouts := before.payouts + 1)],
            balance := w.balance - TotalSent(sends)))
  }

  function SetState(w: World, id: nat, state: ComplaintState): World
    requires id in w.complaints
  {
    w.(complaints := w.complaints[id := w.complaints[id].(state := state)])
  }

  // ---------------------------------------------------------------- entry points

  function Register(w: World, block: Block, sender: Addr, payment: nat, title: string, description: string,
                    defendant: Addr)
    : Result<World, Error>
  {
    match CheckPayment(w, payment)
    case Err(e) => Err(e)
    case Ok(_) =>
      var id := w.config.nextComplaintId;
      var complaint := Complaint(title, description, sender, defendant, Initiated(w.config.Deadline(block)));
      Ok(Receive(w.(complaints := w.complaints[id := complaint],
                    config := w.config.(nextComplaintId := id + 1)), id, payment))
  }

  function Accept(w: World, block: Block, sender: Addr, payment: nat, id: nat): Result<World, Error> {
    match CheckPayment(w, payment)
    case Err(e) => Err(e)
    case Ok(_) =>
      if id !in w.complaints then Err(ComplaintMissing)
      else if sender != w.complaints[id].defendant then Err(Unauthorized)
      else if !w.complaints[id].CurrentState(block).Initiated? then Err(ImproperState)
      else Ok(Receive(SetState(w, id, Waiting(w.config.Deadline(block))), id, payment))
  }

  /** What withdrawing pays out: the plaintiff's share, and the defendant's if he paid. */
  function Refunds(complaint: Complaint, block: Block, cost: nat): Result<seq<Send>, Error> {
    match complaint.CurrentState(block)
    case Initiated(_) => Ok([Send(complaint.plaintiff, Discounted(cost))])
    case Waiting(_) => Ok([Send(complaint.plaintiff, Discounted(cost)), Send(complaint.defendant, Discounted(cost))])
    case Aborted => Ok([Send(complaint.plaintiff, cost)])
    case Withdrawn(_) => Err(ImproperState)
    case Accepted => Err(ImproperState)
    case Processing(_) => Err(ImproperState)
    case Closed(_, _) => Err(ImproperState)
  }

  function Withdraw(w: World, block: Block, sender: Addr, id: nat, reason: string): Result<World, Error> {
    if id !in w.complaints then Err(ComplaintMissing)
    else if w.complaints[id].plaintiff != sender then Err(Unauthorized)
    else
      match Refunds(w.complaints[id], block, w.config.disputeCost)
      case Err(e) => Err(e)
      case Ok(sends) => Pay(SetState(w, id, Withdrawn(reason)), id, sends)
  }

  /** Each arbiter gets one voter entry of weight one. */
  function VotersOf(arbiters: seq<Addr>): seq<M.Voter> {
    seq(|arbiters|, i requires 0 <= i < |arbiters| => M.Voter(arbiters[i], 1))
  }

  function PassWeight(arbiters: seq<Addr>): nat {
    |arbiters| / 2 + 1
  }

  function NewMultisig(w: World, block: Block, id: nat, arbiters: seq<Addr>): Result<M.Storage, M.Error> {
    M.Instantiate(block, w.self, VotersOf(arbiters), AbsoluteCount(PassWeight(arbiters)),
        Duration.Time(w.config.waitingPeriod), id)
  }

  /** The reply to the instantiation: the complaint awaiting it is now being processed. */
  function InstantiateReply(w: World, contract: Addr): Result<World, Error> {
    if w.awaiting.None? || w.awaiting.value !in w.complaints then Err(ComplaintMissing)
    else Ok(SetState(w, w.awaiting.value, Processing(contract)))
  }

  function AssignArbiters(w: World, block: Block, id: nat, arbiters: seq<Addr>, contract: Addr): Result<World, Error> {
    if id !in w.complaints then Err(ComplaintMissing)
    else if w.complaints[id].CurrentState(block) != Accepted then Err(ImproperState)
    else if contract in w.multisigs then Err(AddressTaken)
    else
      match NewMultisig(w, block, id, arbiters)
      case Err(_) => Err(MultisigFailed)
      case Ok(m) => InstantiateReply(w.(awaiting := Some(id), multisigs := w.multisigs[contract := m]), contract)
  }

  /** The fee per voter when two dispute costs are split among `n`. */
  function FeeEach(cost: nat, n: nat): nat
    requires n > 0
  {
    2 * cost / n
  }

  /** The same fee for each member of a list. */
  function Fees(members: seq<Addr>, fee: nat): seq<Send> {
    seq(|members|, i requires 0 <= i < |members| => Send(members[i], fee))
  }

  function Render(w: World, sender: Addr, id: nat, summary: string, ipfsLink: string): Result<World, Error> {
    if id !in w.complaints then Err(ComplaintMissing)
    else
      match w.complaints[id].state
      case Processing(arbiters) =>
        if arbiters != sender then Err(Unauthorized)
        else if sender !in w.multisigs then Err(NoSuchContract)
        else
          var members := Ascending(w.multisigs[sender].voters.Keys);
          if members == [] then Err(DivisionByZero)
          else
            var fee := FeeEach(w.config.disputeCost, |members|);
            Pay(SetState(w, id, Closed(summary, ipfsLink)), id, Fees(members, fee))
      case Initiated(_) => Err(ImproperState)
      case Waiting(_) => Err(ImproperState)
      case Withdrawn(_) => Err(ImproperState)
      case Aborted => Err(ImproperState)
      case Accepted => Err(ImproperState)
      case Closed(_, _) => Err(ImproperState)
  }

  /** A call to a multisig. If it executes, the decision is rendered in the same transaction. */
  function ToMultisig(w: World, call: Call, contract: Addr, message: M.Message, summary: string, ipfsLink: string)
    : Result<World, Error>
  {
    if contract !in w.multisigs then Err(NoSuchContract)
    else
      match M.Handle(w.multisigs[contract], Call(call.block, call.sender, message))
      case Err(_) => Err(MultisigFailed)
      case Ok(m) =>
        var called := w.(multisigs := w.multisigs[contract := m]);
        if message.Execute? then Render(called, contract, m.config.complaintId, summary, ipfsLink) else Ok(called)
  }

  function Handle(w: World, call: Call): Result<World, Error> {
    match call.message
    case Donate(amount) => Ok(w.(balance := w.balance + amount, donated := w.donated + amount))
    case RegisterComplaint(payment, title, description, defendant) =>
      Register(w, call.block, call.sender, payment, title, description, defendant)
    case AcceptComplaint(payment, id) => Accept(w, call.block, call.sender, payment, id)
    case WithdrawComplaint(id, reason) => Withdraw(w, call.block, call.sender, id, reason)
    case ProposeArbiters(id, arbiters, contract) => AssignArbiters(w, call.block, id, arbiters, contract)
    case RenderDecision(id, summary, ipfsLink) =>
      if call.sender in w.multisigs then Err(Unauthorized) // a multisig only calls from its own execution
      else Render(w, call.sender, id, summary, ipfsLink)
    case CallMultisig(contract, message, summary, ipfsLink) => ToMultisig(w, call, contract, message, summary, ipfsLink)
  }

  function Step(w: World, call: Call): World {
    match Handle(w, call)
    case Ok(next) => next
    case Err(_) => w
  }

  function Run(w: World, calls: seq<Call>): World
    decreases |calls|
  {
    if calls == [] then w else Run(Step(w, calls[0]), calls[1..])
  }

  function Start(self: Addr, disputeCost: nat, waitingPeriod: nat): World {
    World(self, Config(disputeCost, waitingPeriod, 0), map[], None, map[], map[], 0, 0)
  }

  // ---------------------------------------------------------------- the pagination loop

  /** Asks for page after page, each after the last address of the one before, until one is empty. */
  method QueryMultisigVoters(voters: map<Addr, nat>) returns (list: seq<Addr>)
    ensures list == Ascending(voters.Keys)
  {
    hide Ascending, M.ListVoters;
    list := [];
    ghost var all := Ascending(voters.Keys);
    while true
      invariant |list| <= |all| && list == all[..|list|]
      decreases |all| - |list|
    {
      var page := M.ListVoters(voters, if list == [] then None else Some(list[|list| - 1]), None);
      NextPage(voters, |list|);
      if page == [] {
        break;
      }
      var more := seq(|page|, i requires 0 <= i < |page| => page[i].addr);
      assert more == all[|list|..|list| + |page|];
      list := list + more;
    }
  }

  /** A page holds the first voters after its start, and misses some only if it is full. */
  lemma PageAddresses(voters: map<Addr, nat>, start: Option<Addr>)
    ensures
      var keys := Ascending(M.KeysAfter(voters, start));
      var page := M.ListVoters(voters, start, None);
      && |page| <= |keys| && (page == [] ==> keys == [])
      && forall i :: 0 <= i < |page| ==> page[i].addr == keys[i]
  {
    hide Ascending;
  }

  /** The page after the first `k` voters continues the list, and is empty only at its end. */
  lemma NextPage(voters: map<Addr, nat>, k: nat)
    requires k <= |Ascending(voters.Keys)|
    ensures
      var all := Ascending(voters.Keys);
      var page := M.ListVoters(voters, if k == 0 then None else Some(all[k - 1]), None);
      && k + |page| <= |all|
      && (forall i :: 0 <= i < |page| ==> page[i].addr == all[k + i])
      && (page == [] ==> k == |all|)
  {
    hide Ascending, M.ListVoters;
    var all := Ascending(voters.Keys);
    var last := if k == 0 then None else Some(all[k - 1]);
    AscendingSuffix(voters.Keys, k, M.KeysAfter(voters, last));
    PageAddresses(voters, last);
  }

  /** A part of the sends costs no more than all of them. */
  lemma {:induction false} PrefixTotal(sends: seq<Send>, k: nat)
    requires k <= |sends|
    ensures TotalSent(sends[..k]) <= TotalSent(sends)
    decreases |sends|
  {
    if k == |sends| {
      assert sends[..k] == sends;
    } else {
      PrefixTotal(sends[..|sends| - 1], k);
      assert sends[..|sends| - 1][..k] == sends[..k];
    }
  }

  // ---------------------------------------------------------------- the contract

  /** The arbiter pool, with the multisigs it can query and the ledger of its tokens. */
  class ArbiterPool {
    const self: Addr
    var config: Config
    var complaints: map<nat, Complaint>
    var awaiting: Option<nat>
    var multisigs: map<Addr, M.Storage>
    ghost var accounts: map<nat, Account>
    ghost var donated: nat
    var balance: nat

    ghost function State(): World
      reads this
    {
      World(self, config, complaints, awaiting, multisigs, accounts, donated, balance)
    }

    constructor (self: Addr, disputeCost: nat, waitingPeriod: nat)
      ensures State() == Start(self, disputeCost, waitingPeriod)
    {
      this.self := self;
      config := Config(disputeCost, waitingPeriod, 0);
      complaints, awaiting, multisigs, accounts, donated, balance := map[], None, map[], map[], 0, 0;
    }

    method ReceivePayment(id: nat, payment: nat)
      modifies `accounts, `balance
      ensures State() == Receive(old(State()), id, payment)
    {
      ghost var before := AccountOf(State(), id);
      accounts := accounts[id := before.(paidIn := before.paidIn + payment)];
      balance := balance + payment;
    }

    method SendPayments(id: nat, sends: seq<Send>) returns (r: Result<(), Error>)
      modifies `accounts, `balance
      ensures Does(r, Pay(old(State()), id, sends), State())
    {
      var remaining := balance;
      for i := 0 to |sends|
        invariant TotalSent(sends[..i]) <= balance && remaining == balance - TotalSent(sends[..i])
      {
        assert sends[..i + 1][..i] == sends[..i];
        if remaining < sends[i].amount {
          PrefixTotal(sends, i + 1);
          return Err(InsufficientBalance);
        }
        remaining := remaining - sends[i].amount;
      }
      assert sends[..|sends|] == sends;
      ghost var before := AccountOf(State(), id);
      accounts := accounts[id := before.(sent := before.sent + sends, payouts := before.payouts + 1)];
      balance := remaining;
      return Ok(());
    }

    method ExecuteRegisterComplaint(block: Block, sender: Addr, payment: nat, title: string, description: string,
                                    defendant: Addr)
      returns (r: Result<(), Error>)
      modifies `config, `complaints, `accounts, `balance
      ensures Does(r, Register(old(State()), block, sender, payment, title, description, defendant), State())
    {
      if payment == 0 {
        return Err(InvalidPayment);
      }
      if payment != config.disputeCost {
        return Err(InvalidDisputePayment);
      }
      var id := config.nextComplaintId;
      var state := Initiated(config.Deadline(block));
      complaints := complaints[id := Complaint(title, description, sender, defendant, state)];
      config := config.(nextComplaintId := id + 1);
      ReceivePayment(id, payment);
      return Ok(());
    }

    method ExecuteAcceptComplaint(block: Block, sender: Addr, payment: nat, id: nat) returns (r: Result<(), Error>)
      modifies `complaints, `accounts, `balance
      ensures Does(r, Accept(old(State()), block, sender, payment, id), State())
    {
      if payment == 0 {
        return Err(InvalidPayment);
      }
      if payment != config.disputeCost {
        return Err(InvalidDisputePayment);
      }
      if id !in complaints {
        return Err(ComplaintMissing);
      }
      var complaint := complaints[id];
      if sender != complaint.defendant {
        return Err(Unauthorized);
      }
      if !complaint.CurrentState(block).Initiated? {
        return Err(ImproperState);
      }
      complaints := complaints[id := complaint.(state := Waiting(config.Deadline(block)))];
      ReceivePayment(id, payment);
      return Ok(());
    }

    method ExecuteWithdrawComplaint(block: Block, sender: Addr, id: nat, reason: string) returns (r: Result<(), Error>)
      modifies `complaints, `accounts, `balance
      ensures Does(r, Withdraw(old(State()), block, sender, id, reason), State())
    {
      if id !in complaints {
        return Err(ComplaintMissing);
      }
      var complaint := complaints[id];
      if complaint.plaintiff != sender {
        return Err(Unauthorized);
      }
      var messages: seq<Send> := [];
      match complaint.CurrentState(block) {
        case Initiated(_) =>
          messages := messages + [Send(sender, Discounted(config.disputeCost))];
        case Waiting(_) =>
          messages := messages + [Send(sender, Discounted(config.disputeCost))];
          messages := messages + [Send(complaint.defendant, Discounted(config.disputeCost))];
          assert Refunds(complaint, block, config.disputeCost).value == messages;
        case Aborted =>
          messages := messages + [Send(sender, config.disputeCost)];
        case Withdrawn(_) => return Err(ImproperState);
        case Accepted => return Err(ImproperState);
        case Processing(_) => return Err(ImproperState);
        case Closed(_, _) => return Err(ImproperState);
      }
      complaints := complaints[id := complaint.(state := Withdrawn(reason))];
      r := SendPayments(id, messages);
    }

    method MultisigInstantiateReply(contract: Addr) returns (r: Result<(), Error>)
      modifies `complaints
      ensures Does(r, InstantiateReply(old(State()), contract), State())
    {
      if awaiting.None? || awaiting.value !in complaints {
        return Err(ComplaintMissing);
      }
      complaints := complaints[awaiting.value := complaints[awaiting.value].(state := Processing(contract))];
      return Ok(());
    }

    method ExecuteProposeArbiters(block: Block, id: nat, arbiters: seq<Addr>, contract: Addr)
      returns (r: Result<(), Error>)
      modifies `complaints, `awaiting, `multisigs
      ensures Does(r, AssignArbiters(old(State()), block, id, arbiters, contract), State())
    {
      if id !in complaints {
        return Err(ComplaintMissing);
      }
      if complaints[id].CurrentState(block) != Accepted {
        return Err(ImproperState);
      }
      if contract in multisigs {
        return Err(AddressTaken);
      }
      var created := M.Instantiate(block, self, VotersOf(arbiters), AbsoluteCount(PassWeight(arbiters)),
                                   Duration.Time(config.waitingPeriod), id);
      if created.Err? {
        return Err(MultisigFailed);
      }
      awaiting := Some(id);
      multisigs := multisigs[contract := created.value];
      r := MultisigInstantiateReply(contract);
    }

    method ExecuteRenderDecision(sender: Addr, id: nat, summary: string, ipfsLink: string)
      returns (r: Result<(), Error>)
      modifies `complaints, `accounts, `balance
      ensures Does(r, Render(old(State()), sender, id, summary, ipfsLink), State())
    {
      hide Ascending, FeeEach, Pay, M.ListVoters;
      if id !in complaints {
        return Err(ComplaintMissing);
      }
      var complaint := complaints[id];
      if !complaint.state.Processing? {
        return Err(ImproperState);
      }
      if complaint.state.arbiters != sender {
        return Err(Unauthorized);
      }
      if sender !in multisigs {
        return Err(NoSuchContract);
      }
      complaints := complaints[id := complaint.(state := Closed(summary, ipfsLink))];
      ghost var rendered := State();
      var members := QueryMultisigVoters(multisigs[sender].voters);
      if members == [] {
        return Err(DivisionByZero);
      }
      var fee := FeeEach(config.disputeCost, |members|);
      var messages: seq<Send> := [];
      for i := 0 to |members|
        invariant messages == Fees(members[..i], fee)
        invariant State() == rendered
      {
        messages := messages + [Send(members[i], fee)];
      }
      assert members[..|members|] == members;
      r := SendPayments(id, messages);
    }

    method CallAMultisig(call: Call, contract: Addr, message: M.Message, summary: string, ipfsLink: string)
      returns (r: Result<(), Error>)
      modifies `complaints, `accounts, `balance, `multisigs
      ensures Does(r, ToMultisig(old(State()), call, contract, message, summary, ipfsLink), State())
    {
      if contract !in multisigs {
        return Err(NoSuchContract);
      }
      var called := M.Handle(multisigs[contract], Call(call.block, call.sender, message));
      if called.Err? {
        return Err(MultisigFailed);
      }
      multisigs := multisigs[contract := called.value];
      if message.Execute? {
        r := ExecuteRenderDecision(contract, called.value.config.complaintId, summary, ipfsLink);
        return;
      }
      return Ok(());
    }

    method Dispatch(call: Call) returns (r: Result<(), Error>)
      modifies this
      ensures Does(r, Handle(old(State()), call), State())
    {
      hide Register, Accept, Withdraw, AssignArbiters, Render, ToMultisig;
      match call.message {
        case Donate(amount) =>
          balance := balance + amount;
          donated := donated + amount;
          return Ok(());
        case RegisterComplaint(payment, title, description, defendant) =>
          r := ExecuteRegisterComplaint(call.block, call.sender, payment, title, description, defendant);
        case AcceptComplaint(payment, id) => r := ExecuteAcceptComplaint(call.block, call.sender, payment, id);
        case WithdrawComplaint(id, reason) => r := ExecuteWithdrawComplaint(call.block, call.sender, id, reason);
        case ProposeArbiters(id, arbiters, contract) => r := ExecuteProposeArbiters(call.block, id, arbiters, contract);
        case RenderDecision(id, summary, ipfsLink) =>
          if call.sender in multisigs {
            return Err(Unauthorized);
          }
          r := ExecuteRenderDecision(call.sender, id, summary, ipfsLink);
        case CallMultisig(contract, message, summary, ipfsLink) =>
          r := CallAMultisig(call, contract, message, summary, ipfsLink);
      }
    }

    /** One transaction: a failing message leaves everything as it was. */
    method Transact(call: Call) returns (r: Result<(), Error>)
      modifies this
      ensures State() == Step(old(State()), call)
      ensures r.Ok? <==> Handle(old(State()), call).Ok?
    {
      var config0, complaints0, awaiting0, multisigs0, balance0 := config, complaints, awaiting, multisigs, balance;
      ghost var accounts0, donated0 := accounts, donated;
      r := Dispatch(call);
      if r.Err? {
        config, complaints, awaiting, multisigs, balance := config0, complaints0, awaiting0, multisigs0, balance0;
        accounts, donated := accounts0, donated0;
      }
    }
  }
}
