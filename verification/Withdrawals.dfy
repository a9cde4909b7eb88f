/**
 * requestWithdrawal of sellers and riders, and the admin's status changes, on one user's transactions. Amounts are
 * paise.
 */
module Withdrawals {

  datatype Kind = Withdrawal | OtherKind

  datatype Status = Pending | Processing | Settled | Failed | Expired

  datatype Transaction = Transaction(kind: Kind, amount: int, status: Status)

  datatype Reply = InvalidAmount | Insufficient(available: int) | Requested

  function Abs(x: int): int { if x < 0 then -x else x }

  function SettledBalance(ts: seq<Transaction>): int {
    if ts == [] then 0
    else SettledBalance(ts[..|ts| - 1]) + if ts[|ts| - 1].status == Settled then ts[|ts| - 1].amount else 0
  }

  predicate Open(t: Transaction) { t.kind == Withdrawal && (t.status == Pending || t.status == Processing) }

  function PendingPayouts(ts: seq<Transaction>): int {
    if ts == [] then 0
    else PendingPayouts(ts[..|ts| - 1]) + if Open(ts[|ts| - 1]) then Abs(ts[|ts| - 1].amount) else 0
  }

  function Available(ts: seq<Transaction>): int { SettledBalance(ts) - PendingPayouts(ts) }

  /** A withdrawal that takes money out of the balance: anything but failed or expired. */
  predicate Claims(t: Transaction) { t.status != Failed && t.status != Expired }

  function Request(ts: seq<Transaction>, amount: int): (seq<Transaction>, Reply) {
    if amount <= 0 then (ts, InvalidAmount)
    else if amount > Available(ts) then (ts, Insufficient(Available(ts)))
    else (ts + [Transaction(Withdrawal, -amount, Pending)], Requested)
  }

  /** updateWithdrawalStatusById accepts three statuses and asks nothing about the one before. */
  function ChangeStatus(ts: seq<Transaction>, i: nat, status: Status): (after: seq<Transaction>)
    ensures |after| == |ts|
  {
    if i < |ts| && status in {Settled, Failed, Processing} then ts[i := ts[i].(status := status)] else ts
  }

  class Account {
    var transactions: seq<Transaction>

    method RequestWithdrawal(amount: int) returns (reply: Reply)
      modifies this
      ensures (transactions, reply) == Request(old(transactions), amount)
      ensures old(Available(transactions)) >= 0 ==> Available(transactions) >= 0
      ensures reply == Requested ==> Available(transactions) == old(Available(transactions)) - amount
    {
      if amount <= 0 { return InvalidAmount; }
      var availableBalance := SettledBalance(transactions) - PendingPayouts(transactions);
      if amount > availableBalance { return Insufficient(availableBalance); }
      AvailableSnoc(transactions, Transaction(Withdrawal, -Abs(amount), Pending));
      transactions := transactions + [Transaction(Withdrawal, -Abs(amount), Pending)];
      reply := Requested;
    }

    method UpdateStatus(i: nat, status: Status) returns (ok: bool)
      modifies this
      ensures ok == (i < |old(transactions)| && status in {Settled, Failed, Processing})
      ensures transactions == ChangeStatus(old(transactions), i, status)
      ensures transactions
           == if ok then old(transactions)[i := old(transactions)[i].(status := status)] else old(transactions)
    {
      ok := i < |transactions| && status in {Settled, Failed, Processing};
      if ok { transactions := transactions[i := transactions[i].(status := status)]; }
    }
  }

  // ---------- what one change does to the balance ----------

  /** What a transaction adds to the available balance. */
  function Share(t: Transaction): int {
    (if t.status == Settled then t.amount else 0) - (if Open(t) then Abs(t.amount) else 0)
  }

  lemma AvailableSnoc(ts: seq<Transaction>, t: Transaction)
    ensures Available(ts + [t]) == Available(ts) + Share(t)
  {
    assert (ts + [t])[..|ts|] == ts;
  }

  /** The balance is made of its transactions one by one: settled amounts, less withdrawals not yet settled. */
  lemma AvailableIs(ts: seq<Transaction>, t: Transaction)
    ensures Available([]) == 0
    ensures t.status == Settled ==> Available(ts + [t]) == Available(ts) + t.amount
    ensures t.kind == Withdrawal && t.status in {Pending, Processing} ==>
      Available(ts + [t]) == Available(ts) - if t.amount < 0 then -t.amount else t.amount
    ensures t.status != Settled && (t.kind != Withdrawal || t.status in {Failed, Expired}) ==>
      Available(ts + [t]) == Available(ts)
  {
    AvailableSnoc(ts, t);
  }

  /** Every answer to a request, with the row that it appends. */
  lemma RequestIs(ts: seq<Transaction>, amount: int)
    ensures var (after, reply) := Request(ts, amount);
            && (reply == InvalidAmount <==> amount <= 0)
            && (reply.Insufficient? <==> amount > 0 && amount > Available(ts))
            && (reply.Insufficient? ==> reply.available == Available(ts))
            && after == ts + if 0 < amount <= Available(ts) then [Transaction(Withdrawal, -amount, Pending)] else []
  {
    assert ts + [] == ts;
  }

  lemma {:induction false} AvailableUpdate(ts: seq<Transaction>, i: nat, t: Transaction)
    requires i < |ts|
    ensures Available(ts[i := t]) == Available(ts) - Share(ts[i]) + Share(t)
  {
    var n := |ts| - 1;
    if i < n {
      AvailableUpdate(ts[..n], i, t);
      assert ts[i := t][..n] == ts[..n][i := t];
    } else {
      assert ts[i := t][..n] == ts[..n];
    }
  }

  /**
   * Settling or processing an active withdrawal leaves the balance alone, failing it gives exactly its amount back and
   * reviving it takes the amount again; any other transaction counts just while it is settled.
   */
  lemma StatusChange(ts: seq<Transaction>, i: nat, status: Status)
    requires i < |ts| && status in {Settled, Failed, Processing}
    ensures ts[i].kind == Withdrawal && ts[i].amount <= 0 ==>
      Available(ChangeStatus(ts, i, status)) == Available(ts)
        + (if Claims(ts[i]) && status == Failed then Abs(ts[i].amount) else 0)
        - (if !Claims(ts[i]) && status != Failed then Abs(ts[i].amount) else 0)
    ensures ts[i].kind != Withdrawal ==>
      Available(ChangeStatus(ts, i, status)) == Available(ts)
        + (if status == Settled then ts[i].amount else 0) - (if ts[i].status == Settled then ts[i].amount else 0)
  {
    AvailableUpdate(ts, i, ts[i].(status := status));
  }

  /** What a change of status, to any transaction, takes out of the balance. */
  function Cost(t: Transaction, status: Status): int { Share(t) - Share(t.(status := status)) }

  /**
   * A status change of any transaction leaves a balance that is not negative exactly when the balance covers its cost.
   */
  lemma StatusChangeSafeIff(ts: seq<Transaction>, i: nat, status: Status)
    requires i < |ts| && status in {Settled, Failed, Processing}
    ensures Available(ChangeStatus(ts, i, status)) >= 0 <==> Cost(ts[i], status) <= Available(ts)
  {
    AvailableUpdate(ts, i, ts[i].(status := status));
  }

  /** An admin who fails a settled credit can overdraw the balance, too. */
  lemma FailedCreditOverdraws()
    ensures var ts := [Transaction(OtherKind, 50, Settled), Transaction(Withdrawal, -50, Settled)];
            Available(ts) == 0 && Available(ChangeStatus(ts, 0, Failed)) == -50
  {
    var credit, payout := Transaction(OtherKind, 50, Settled), Transaction(Withdrawal, -50, Settled);
    AvailableSnoc([], credit);
    AvailableSnoc([credit], payout);
    assert [] + [credit] == [credit] && [credit] + [payout] == [credit, payout];
    StatusChange([credit, payout], 0, Failed);
  }

  /** Withdraw everything, fail it, withdraw everything again, then mark the failed one settled: 50 too much is out. */
  lemma RevivedWithdrawalOverdraws()
    ensures var ts := [Transaction(OtherKind, 50, Settled)];
            var a := Request(ts, 50).0;
            var b := ChangeStatus(a, 1, Failed);
            var c := Request(b, 50).0;
            Available(ChangeStatus(c, 1, Settled)) == -50
  {
    var ts := [Transaction(OtherKind, 50, Settled)];
    assert ts == [] + [Transaction(OtherKind, 50, Settled)] && Available([]) == 0;
    AvailableSnoc([], Transaction(OtherKind, 50, Settled));
    var w := Transaction(Withdrawal, -50, Pending);
    AvailableSnoc(ts, w);
    var a := Request(ts, 50).0;
    StatusChange(a, 1, Failed);
    var b := ChangeStatus(a, 1, Failed);
    AvailableSnoc(b, w);
    var c := Request(b, 50).0;
    StatusChange(c, 1, Settled);
  }

  // ---------- whole runs ----------

  /** A credit is settled at once or pending until its status is changed. */
  datatype Op = Credit(earned: nat, state: Status) | Withdraw(amount: int) | Change(i: nat, status: Status)

  function Step(ts: seq<Transaction>, op: Op): seq<Transaction> {
    match op
    case Credit(earned, state) => ts + [Transaction(OtherKind, earned, state)]
    case Withdraw(amount) => Request(ts, amount).0
    case Change(i, status) => ChangeStatus(ts, i, status)
  }

  function Run(ts: seq<Transaction>, ops: seq<Op>): seq<Transaction>
    decreases |ops|, 0
  {
    if ops == [] then ts else Step(Run(ts, ops[..|ops| - 1]), ops[|ops| - 1])
  }

  /** The balance covers what a status change takes out of it, whichever transaction it is made on. */
  predicate Careful(ts: seq<Transaction>, op: Op) {
    op.Change? && op.i < |ts| && op.status in {Settled, Failed, Processing} ==>
      Cost(ts[op.i], op.status) <= Available(ts)
  }

  predicate CarefulRun(ts: seq<Transaction>, ops: seq<Op>) {
    ops == [] || (CarefulRun(ts, ops[..|ops| - 1]) && Careful(Run(ts, ops[..|ops| - 1]), ops[|ops| - 1]))
  }

  /** The balance is not negative at any point of a run. */
  predicate StaysSolvent(ts: seq<Transaction>, ops: seq<Op>) {
    Available(Run(ts, ops)) >= 0 && (ops == [] || StaysSolvent(ts, ops[..|ops| - 1]))
  }

  /** Credits and requests never overdraw; a status change does not exactly when it is careful. */
  lemma StepSolventIff(ts: seq<Transaction>, op: Op)
    requires Available(ts) >= 0
    ensures Available(Step(ts, op)) >= 0 <==> Careful(ts, op)
  {
    match op
    case Credit(earned, state) => AvailableSnoc(ts, Transaction(OtherKind, earned, state));
    case Withdraw(amount) => AvailableSnoc(ts, Transaction(Withdrawal, -amount, Pending));
    case Change(i, status) =>
      if i < |ts| && status in {Settled, Failed, Processing} { StatusChangeSafeIff(ts, i, status); }
  }

  /**
   * Over any run of credits, requests and status changes the balance stays non-negative iff every change is careful.
   */
  lemma {:induction false} RunSolventIff(ts: seq<Transaction>, ops: seq<Op>)
    requires Available(ts) >= 0
    ensures StaysSolvent(ts, ops) <==> CarefulRun(ts, ops)
  {
    if ops != [] {
      RunSolventIff(ts, ops[..|ops| - 1]);
      if StaysSolvent(ts, ops[..|ops| - 1]) {
        StepSolventIff(Run(ts, ops[..|ops| - 1]), ops[|ops| - 1]);
      }
    }
  }
}
