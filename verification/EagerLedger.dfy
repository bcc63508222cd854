/**
 The ledger the lazy distribution stands for: every distribution walks over all accounts and
 credits each with its points times the share, and nothing is ever corrected.
 */
module EagerLedger {
  import opened Base
  import opened Sums
  import opened Distribution

  /** Credit in units of 1/SCALE of a token; `paid` in whole tokens. */
  datatype Account = Account(credit: int, paid: nat)

  datatype Ledger = Ledger(
    points: map<Addr, nat>,
    accounts: map<Addr, Account>,
    leftover: nat,
    distributed: nat,
    pool: nat,
    balance: int)

  datatype Action =
    | Fund(amount: nat)
    | Distribute
    | Withdraw(owner: Addr)
    | SetPoints(owner: Addr, points: nat)

  function PointsOf(points: map<Addr, nat>, a: Addr): nat {
    if a in points then points[a] else 0
  }

  ghost function Credit(l: Ledger, share: int): map<Addr, Account> {
    map a | a in l.accounts :: Account(l.accounts[a].credit + share * PointsOf(l.points, a), l.accounts[a].paid)
  }

  /** What the account may still draw, in whole tokens. */
  function Owed(account: Account): int {
    account.credit / SCALE - account.paid
  }

  ghost function EagerDistribute(l: Ledger): Ledger {
    var total, amount := Sum(l.points), l.balance - l.pool;
    if total <= 0 || amount <= 0 then l
    else
      var points := amount * SCALE + l.leftover;
      Ledger(l.points, Credit(l, points / total), points % total, l.distributed + amount, l.pool + amount, l.balance)
  }

  function EagerWithdraw(l: Ledger, a: Addr): Ledger {
    if a !in l.accounts || Owed(l.accounts[a]) <= 0 || l.pool < Owed(l.accounts[a]) then l
    else
      var owed := Owed(l.accounts[a]);
      var account := l.accounts[a].(paid := l.accounts[a].paid + owed);
      l.(accounts := l.accounts[a := account], pool := l.pool - owed, balance := l.balance - owed)
  }

  function EagerSetPoints(l: Ledger, a: Addr, points: nat): Ledger {
    l.(points := l.points[a := points],
       accounts := if a in l.accounts then l.accounts else l.accounts[a := Account(0, 0)])
  }

  ghost function EagerStep(l: Ledger, action: Action): Ledger {
    match action
    case Fund(amount) => l.(balance := l.balance + amount)
    case Distribute => EagerDistribute(l)
    case Withdraw(a) => EagerWithdraw(l, a)
    case SetPoints(a, points) => EagerSetPoints(l, a, points)
  }

  ghost function EagerRun(l: Ledger, actions: seq<Action>): Ledger
    decreases |actions|
  {
    if actions == [] then l else EagerRun(EagerStep(l, actions[0]), actions[1..])
  }

  // ---------------------------------------------------------------- conservation

  function Credits(accounts: map<Addr, Account>): map<Addr, int> {
    map a | a in accounts :: accounts[a].credit
  }

  function Payments(accounts: map<Addr, Account>): map<Addr, int> {
    map a | a in accounts :: accounts[a].paid
  }

  function Debts(accounts: map<Addr, Account>): map<Addr, int> {
    map a | a in accounts :: Owed(accounts[a])
  }

  /** Tokens are neither made nor lost, and nobody was paid more than their credit. */
  ghost predicate Conserved(l: Ledger) {
    && l.points.Keys <= l.accounts.Keys
    && (forall a :: a in l.accounts ==> 0 <= l.accounts[a].credit && l.accounts[a].paid <= l.accounts[a].credit / SCALE)
    && Sum(Credits(l.accounts)) + l.leftover == l.distributed * SCALE
    && Sum(Payments(l.accounts)) + l.pool == l.distributed
    && l.pool <= l.balance
  }

  lemma PadPoints(l: Ledger) returns (padded: map<Addr, int>)
    requires l.points.Keys <= l.accounts.Keys
    ensures padded == map a | a in l.accounts :: PointsOf(l.points, a)
    ensures Sum(padded) == Sum(l.points)
  {
    padded := map a | a in l.accounts :: PointsOf(l.points, a);
    SumPadded(l.points, padded);
  }

  /** Crediting everyone adds the share times the total of the points. */
  lemma CreditSum(l: Ledger, share: int)
    requires l.points.Keys <= l.accounts.Keys
    ensures Sum(Credits(Credit(l, share))) == Sum(Credits(l.accounts)) + share * Sum(l.points)
    ensures Payments(Credit(l, share)) == Payments(l.accounts)
  {
    var padded := PadPoints(l);
    SumLinear(Credits(l.accounts), padded, share, Credits(Credit(l, share)));
  }

  /** The shares of the total and the rest are the points handed out. */
  lemma SharesAndRest(points: nat, total: nat)
    requires total > 0
    ensures points / total * total + points % total == points
    ensures points / total + points % total <= points
  {
    AtLeastFactor(points / total, total);
  }

  lemma AtLeastFactor(x: nat, y: nat)
    requires y > 0
    ensures x <= x * y
  {
    assert x * y == x + x * (y - 1);
  }

  /** What is credited and what is left over grow by what is distributed. */
  lemma SharesConserve(l: Ledger, amount: nat)
    requires l.points.Keys <= l.accounts.Keys && Sum(l.points) > 0
    requires Sum(Credits(l.accounts)) + l.leftover == l.distributed * SCALE
    ensures
      var points, total := amount * SCALE + l.leftover, Sum(l.points);
      Sum(Credits(Credit(l, points / total))) + points % total == (l.distributed + amount) * SCALE
  {
    hide Credit, Credits, Sum;
    var points, total := amount * SCALE + l.leftover, Sum(l.points);
    CreditSum(l, points / total);
    SharesAndRest(points, total);
  }

  lemma CreditsGrow(l: Ledger, share: nat)
    requires Conserved(l)
    ensures forall a :: a in l.accounts ==>
      var account := Credit(l, share)[a]; 0 <= account.credit && account.paid <= account.credit / SCALE
  {
    forall a | a in l.accounts
      ensures var account := Credit(l, share)[a]; 0 <= account.credit && account.paid <= account.credit / SCALE
    {
      assert share * PointsOf(l.points, a) >= 0;
    }
  }

  lemma DistributeConserves(l: Ledger)
    requires Conserved(l)
    ensures Conserved(EagerDistribute(l))
  {
    hide Credits, Payments, Sum, PointsOf;
    var total, amount := Sum(l.points), l.balance - l.pool;
    if total > 0 && amount > 0 {
      var share := (amount * SCALE + l.leftover) / total;
      CreditSum(l, share);
      CreditsGrow(l, share);
      SharesConserve(l, amount);
    }
  }

  lemma WithdrawConserves(l: Ledger, a: Addr)
    requires Conserved(l)
    ensures Conserved(EagerWithdraw(l, a))
  {
    var next := EagerWithdraw(l, a);
    if next != l {
      assert Credits(next.accounts) == Credits(l.accounts);
      assert Payments(next.accounts) == Payments(l.accounts)[a := next.accounts[a].paid];
      SumUpdate(Payments(l.accounts), a, next.accounts[a].paid);
    }
  }

  lemma SetPointsConserves(l: Ledger, a: Addr, points: nat)
    requires Conserved(l)
    ensures Conserved(EagerSetPoints(l, a, points))
  {
    var next := EagerSetPoints(l, a, points);
    if a !in l.accounts {
      assert Credits(next.accounts) == Credits(l.accounts)[a := 0];
      assert Payments(next.accounts) == Payments(l.accounts)[a := 0];
      SumUpdate(Credits(l.accounts), a, 0);
      SumUpdate(Payments(l.accounts), a, 0);
    }
  }

  lemma StepConserves(l: Ledger, action: Action)
    requires Conserved(l)
    ensures Conserved(EagerStep(l, action))
  {
    match action
    case Fund(_) =>
    case Distribute => DistributeConserves(l);
    case Withdraw(a) => WithdrawConserves(l, a);
    case SetPoints(a, points) => SetPointsConserves(l, a, points);
  }

  lemma {:induction false} RunConserves(l: Ledger, actions: seq<Action>)
    requires Conserved(l)
    ensures Conserved(EagerRun(l, actions))
    decreases |actions|
  {
    if actions == [] {
    } else {
      StepConserves(l, actions[0]);
      RunConserves(EagerStep(l, actions[0]), actions[1..]);
    }
  }

  /** Everybody can be paid at once, and what stays undrawable is dust: below one token per
      account plus the leftover, however many rounds there were. */
  lemma SolventUpToDust(l: Ledger)
    requires Conserved(l)
    ensures 0 <= Sum(Debts(l.accounts)) <= l.pool <= l.balance
    ensures (l.pool - Sum(Debts(l.accounts))) * SCALE <= l.leftover + |l.accounts| * (SCALE - 1)
  {
    var whole: map<Addr, int> := map a | a in l.accounts :: l.accounts[a].credit / SCALE;
    var parts: map<Addr, int> := map a | a in l.accounts :: l.accounts[a].credit % SCALE;
    SumLinear(parts, whole, SCALE, Credits(l.accounts));
    SumLinear(whole, Payments(l.accounts), -1, Debts(l.accounts));
    SumBound(parts, SCALE - 1);
    assert |parts| == |l.accounts| by { assert parts.Keys == l.accounts.Keys; }
    SumNonNegative(parts);
    SumNonNegative(Debts(l.accounts));
  }

  /** What one account may draw is within the pool. */
  lemma OwedWithinPool(l: Ledger, a: Addr)
    requires Conserved(l) && a in l.accounts
    ensures 0 <= Owed(l.accounts[a]) <= l.pool
  {
    SolventUpToDust(l);
    assert Debts(l.accounts)[a] == Owed(l.accounts[a]);
    SumAtLeastEntry(Debts(l.accounts), a);
  }

  // ---------------------------------------------------------------- the leftover

  /** The total among which the last distribution of a run divided, or `before` if there was none. */
  ghost function LastTotal(l: Ledger, actions: seq<Action>, before: nat): nat
    decreases |actions|
  {
    if actions == [] then before
    else
      var total := Sum(l.points);
      var divided := actions[0].Distribute? && total > 0 && l.balance > l.pool;
      LastTotal(EagerStep(l, actions[0]), actions[1..], if divided then total else before)
  }

  /** After any run the leftover is below the total of its last distribution. */
  lemma {:induction false} LeftoverBelowLastTotal(l: Ledger, actions: seq<Action>, before: nat)
    requires l.leftover == 0 || l.leftover < before
    ensures
      var end := EagerRun(l, actions);
      end.leftover == 0 || end.leftover < LastTotal(l, actions, before)
    decreases |actions|
  {
    if actions == [] {
    } else {
      hide Sum, Credit;
      var total := Sum(l.points);
      var divided := actions[0].Distribute? && total > 0 && l.balance > l.pool;
      LeftoverBelowLastTotal(EagerStep(l, actions[0]), actions[1..], if divided then total else before);
    }
  }

  predicate PointsAtMost(points: map<Addr, nat>, most: nat) {
    forall a :: a in points ==> points[a] <= most
  }

  predicate ActionsAtMost(actions: seq<Action>, most: nat) {
    forall i :: 0 <= i < |actions| && actions[i].SetPoints? ==> actions[i].points <= most
  }

  /** No total exceeds what the accounts can hold, and accounts never go away. */
  lemma {:induction false} LastTotalBound(l: Ledger, actions: seq<Action>, before: nat, most: nat)
    requires l.points.Keys <= l.accounts.Keys && PointsAtMost(l.points, most) && ActionsAtMost(actions, most)
    requires before <= |l.accounts| * most
    ensures LastTotal(l, actions, before) <= |EagerRun(l, actions).accounts| * most
    decreases |actions|
  {
    if actions == [] {
    } else {
      var next := EagerStep(l, actions[0]);
      TotalBound(l, most);
      AccountsStay(l, actions[0], most);
      MulMonotone(|l.accounts|, |next.accounts|, most, most);
      hide EagerStep, Sum, PointsAtMost;
      var total := Sum(l.points);
      var divided := actions[0].Distribute? && total > 0 && l.balance > l.pool;
      assert ActionsAtMost(actions[1..], most);
      LastTotalBound(next, actions[1..], if divided then total else before, most);
    }
  }

  lemma TotalBound(l: Ledger, most: nat)
    requires l.points.Keys <= l.accounts.Keys && PointsAtMost(l.points, most)
    ensures Sum(l.points) <= |l.accounts| * most
  {
    SumBound(l.points, most);
    SubsetSize(l.points.Keys, l.accounts.Keys);
    MulMonotone(|l.points|, |l.accounts|, most, most);
  }

  lemma AccountsStay(l: Ledger, action: Action, most: nat)
    requires l.points.Keys <= l.accounts.Keys && PointsAtMost(l.points, most) && ActionsAtMost([action], most)
    ensures
      var next := EagerStep(l, action);
      && next.points.Keys <= next.accounts.Keys && PointsAtMost(next.points, most)
      && |l.accounts| <= |next.accounts|
  {
    hide Sum;
    assert action == [action][0];
    SubsetSize(l.accounts.Keys, EagerStep(l, action).accounts.Keys);
  }

  // ---------------------------------------------------------------- withdrawals do not matter

  function WithoutWithdrawals(actions: seq<Action>): seq<Action> {
    if actions == [] then []
    else (if actions[0].Withdraw? then [] else [actions[0]]) + WithoutWithdrawals(actions[1..])
  }

  /** The ledger as if nobody had ever withdrawn. */
  function Unpaid(l: Ledger): Ledger {
    l.(accounts := map a | a in l.accounts :: Account(l.accounts[a].credit, 0),
       balance := l.balance + l.distributed - l.pool,
       pool := l.distributed)
  }

  lemma UnpaidStep(l: Ledger, action: Action)
    requires Conserved(l)
    ensures Unpaid(EagerStep(l, action)) == if action.Withdraw? then Unpaid(l) else EagerStep(Unpaid(l), action)
  {
    var u := Unpaid(l);
    match action
    case Fund(_) =>
    case Distribute =>
      if Sum(l.points) > 0 && l.balance > l.pool {
        var share := ((l.balance - l.pool) * SCALE + l.leftover) / Sum(l.points);
        assert Unpaid(EagerDistribute(l)).accounts == Credit(u, share);
      }
    case Withdraw(a) =>
      assert Unpaid(EagerWithdraw(l, a)).accounts == u.accounts;
    case SetPoints(a, points) =>
      assert Unpaid(EagerSetPoints(l, a, points)).accounts == EagerSetPoints(u, a, points).accounts;
  }

  /** Leaving out all withdrawals changes nothing but what was paid. */
  lemma {:induction false} WithdrawalsDoNotMatter(l: Ledger, actions: seq<Action>)
    requires Conserved(l)
    ensures Unpaid(EagerRun(l, actions)) == EagerRun(Unpaid(l), WithoutWithdrawals(actions))
    decreases |actions|
  {
    if actions == [] {
    } else {
      var next := EagerStep(l, actions[0]);
      StepConserves(l, actions[0]);
      UnpaidStep(l, actions[0]);
      WithdrawalsDoNotMatter(next, actions[1..]);
      if !actions[0].Withdraw? {
        assert WithoutWithdrawals(actions)[1..] == WithoutWithdrawals(actions[1..]);
      } else {
        assert WithoutWithdrawals(actions) == WithoutWithdrawals(actions[1..]);
      }
    }
  }
}
