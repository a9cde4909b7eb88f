/**
 * deliveryController.js, submitDeliveryCodCashToAdmin: collected cash handed in, oldest order first. Amounts are
 * paise.
 */
module CodCash {
  import opened Wrappers

  /** A rider's order; the rider's orders are kept oldest first. */
  datatype Order = Order(cod: bool, cancelled: bool, marked: bool, collected: nat, remitted: nat, pending: int)

  /** The query for orders with cash ready to submit. */
  predicate Ready(o: Order) { o.cod && !o.cancelled && o.marked && o.pending > 0 }

  /** What orderFinanceService keeps true of an order from the moment its cash is marked as collected. */
  predicate Consistent(o: Order) { o.pending == o.collected - o.remitted }

  /**
   * Nothing is asked of an order without cash to submit: a COD order may have an amount pending before its delivery.
   */
  ghost predicate ReadyConsistent(os: seq<Order>) {
    forall i :: 0 <= i < |os| && Ready(os[i]) ==> Consistent(os[i])
  }

  function Available(o: Order): nat { if Ready(o) then o.pending else 0 }

  function TotalAvailable(os: seq<Order>): nat {
    if os == [] then 0 else TotalAvailable(os[..|os| - 1]) + Available(os[|os| - 1])
  }

  function Remit(o: Order, amount: nat): Order {
    if amount == 0 then o
    else o.(remitted := o.remitted + amount, pending := o.collected - o.remitted - amount)
  }

  function Min(a: int, b: int): int { if a < b then a else b }

  /**
   * The share of an order in a submission: what is left of the amount after all older orders, but no more than it has.
   */
  function Share(os: seq<Order>, amount: nat, i: nat): (s: nat)
    requires i < |os|
    ensures s <= Available(os[i])
  {
    var older := TotalAvailable(os[..i]);
    if amount <= older then 0 else Min(amount - older, Available(os[i]))
  }

  /** Each order with its share remitted. */
  function Settle(os: seq<Order>, amount: nat): (after: seq<Order>)
    ensures |after| == |os|
  {
    seq(|os|, i requires 0 <= i < |os| => Remit(os[i], Share(os, amount, i)))
  }

  // ---------- the waterfall ----------

  lemma {:induction false} AvailableGrows(os: seq<Order>, i: nat, j: nat)
    requires i <= j <= |os|
    ensures TotalAvailable(os[..i]) <= TotalAvailable(os[..j])
    ensures i < j ==> TotalAvailable(os[..i]) + Available(os[i]) <= TotalAvailable(os[..j])
  {
    if i < j {
      AvailableGrows(os, i, j - 1);
      assert os[..j][..j - 1] == os[..j - 1];
    }
  }

  /** An order gets something only when every older one is settled in full, and none is settled beyond what it has. */
  lemma OldestFirst(os: seq<Order>, amount: nat, i: nat, j: nat)
    requires i < j < |os| && Share(os, amount, j) > 0
    ensures Share(os, amount, i) == Available(os[i])
  {
    AvailableGrows(os, i, j);
  }

  function Shares(os: seq<Order>, amount: nat, n: nat): nat
    requires n <= |os|
  {
    if n == 0 then 0 else Shares(os, amount, n - 1) + Share(os, amount, n - 1)
  }

  lemma {:induction false} SharesAddUp(os: seq<Order>, amount: nat, n: nat)
    requires n <= |os|
    ensures Shares(os, amount, n) == Min(amount, TotalAvailable(os[..n]))
  {
    if n != 0 {
      SharesAddUp(os, amount, n - 1);
      assert os[..n][..n - 1] == os[..n - 1];
    }
  }

  /** An order's share from what remains when its turn comes. */
  lemma NextShare(os: seq<Order>, amount: nat, i: nat)
    requires i < |os|
    ensures var remaining := amount - Shares(os, amount, i);
            Share(os, amount, i) == if Ready(os[i]) && remaining > 0 then Min(os[i].pending, remaining) else 0
    ensures Shares(os, amount, i + 1) == Shares(os, amount, i) + Share(os, amount, i)
  {
    SharesAddUp(os, amount, i);
  }

  /** The orders once the oldest n have had their shares. */
  function SettleFirst(os: seq<Order>, amount: nat, n: nat): (now: seq<Order>)
    requires n <= |os|
    ensures |now| == |os|
  {
    if n == 0 then os else SettleFirst(os, amount, n - 1)[n - 1 := Remit(os[n - 1], Share(os, amount, n - 1))]
  }

  lemma {:induction false} SettleFirstParts(os: seq<Order>, amount: nat, n: nat)
    requires n <= |os|
    ensures SettleFirst(os, amount, n) == Settle(os, amount)[..n] + os[n..]
  {
    if n != 0 { SettleFirstParts(os, amount, n - 1); }
  }

  lemma SettleFirstNext(os: seq<Order>, amount: nat, i: nat)
    requires i < |os|
    ensures SettleFirst(os, amount, i)[i] == os[i]
    ensures SettleFirst(os, amount, i + 1) == SettleFirst(os, amount, i)[i := Remit(os[i], Share(os, amount, i))]
  {
    SettleFirstParts(os, amount, i);
  }

  // ---------- a reconciliation that throws ----------

  /**
   * Whether settling order i throws: `down` are the orders whose reconciliation fails for outside reasons, and none
   * takes more than is collected and not remitted.
   */
  predicate Throws(os: seq<Order>, amount: nat, down: set<nat>, i: nat)
    requires i < |os|
  {
    Share(os, amount, i) > 0 && (i in down || Share(os, amount, i) > os[i].collected - os[i].remitted)
  }

  /** The first order, from the i-th on, at which the loop is left by an exception. */
  function StopFrom(os: seq<Order>, amount: nat, down: set<nat>, i: nat): (stop: nat)
    requires i <= |os|
    ensures i <= stop <= |os| && (stop < |os| ==> Throws(os, amount, down, stop))
    ensures forall j :: i <= j < stop ==> !Throws(os, amount, down, j)
    decreases |os| - i
  {
    if i == |os| || Throws(os, amount, down, i) then i else StopFrom(os, amount, down, i + 1)
  }

  function Stop(os: seq<Order>, amount: nat, down: set<nat>): (stop: nat)
    ensures stop <= |os|
  {
    StopFrom(os, amount, down, 0)
  }

  // ---------- whole runs ----------

  function Pending(os: seq<Order>): int {
    if os == [] then 0 else Pending(os[..|os| - 1]) + os[|os| - 1].pending
  }

  function Remitted(os: seq<Order>): int {
    if os == [] then 0 else Remitted(os[..|os| - 1]) + os[|os| - 1].remitted
  }

  /** An order gives its share and no more than it has: it never goes below zero. */
  lemma SettleEach(os: seq<Order>, amount: nat, i: nat)
    requires ReadyConsistent(os) && i < |os|
    ensures var now, share := Settle(os, amount)[i], Share(os, amount, i);
            && now == os[i].(pending := os[i].pending - share, remitted := os[i].remitted + share)
            && (os[i].pending >= 0 ==> now.pending >= 0) && (share > 0 ==> now.remitted <= now.collected)
            && (Ready(now) ==> Consistent(now))
  {
  }

  /** A submission moves exactly its amount from pending to remitted. */
  lemma {:induction false} SettleMovesAmount(os: seq<Order>, amount: nat, n: nat)
    requires ReadyConsistent(os) && n <= |os|
    ensures Pending(Settle(os, amount)[..n]) == Pending(os[..n]) - Shares(os, amount, n)
    ensures Remitted(Settle(os, amount)[..n]) == Remitted(os[..n]) + Shares(os, amount, n)
  {
    if n != 0 {
      SettleMovesAmount(os, amount, n - 1);
      SettleEach(os, amount, n - 1);
      var after := Settle(os, amount);
      assert os[..n][..n - 1] == os[..n - 1] && after[..n][..n - 1] == after[..n - 1];
    }
  }

  lemma {:induction false} PendingConcat(a: seq<Order>, b: seq<Order>)
    ensures Pending(a + b) == Pending(a) + Pending(b) && Remitted(a + b) == Remitted(a) + Remitted(b)
  {
    if b == [] {
      assert a + b == a;
    } else {
      PendingConcat(a, b[..|b| - 1]);
      assert (a + b)[..|a + b| - 1] == a + b[..|b| - 1];
    }
  }

  /** Settling the oldest n moves exactly their shares, and every order with cash left to submit stays consistent. */
  lemma SettleFirstMoves(os: seq<Order>, amount: nat, n: nat)
    requires ReadyConsistent(os) && n <= |os|
    ensures ReadyConsistent(SettleFirst(os, amount, n))
    ensures Pending(SettleFirst(os, amount, n)) == Pending(os) - Shares(os, amount, n)
    ensures Remitted(SettleFirst(os, amount, n)) == Remitted(os) + Shares(os, amount, n)
  {
    SettleFirstParts(os, amount, n);
    SettleMovesAmount(os, amount, n);
    HeadMoves(os, Settle(os, amount)[..n], Shares(os, amount, n));
    SettleFirstConsistent(os, amount, n);
  }

  /** What the oldest orders move is what all orders move. */
  lemma {:induction false} HeadMoves(os: seq<Order>, head: seq<Order>, moved: int)
    requires |head| <= |os|
    requires Pending(head) == Pending(os[..|head|]) - moved && Remitted(head) == Remitted(os[..|head|]) + moved
    ensures Pending(head + os[|head|..]) == Pending(os) - moved
    ensures Remitted(head + os[|head|..]) == Remitted(os) + moved
  {
    PendingConcat(head, os[|head|..]);
    PendingConcat(os[..|head|], os[|head|..]);
    assert os[..|head|] + os[|head|..] == os;
  }

  lemma SettleFirstConsistent(os: seq<Order>, amount: nat, n: nat)
    requires ReadyConsistent(os) && n <= |os|
    ensures ReadyConsistent(SettleFirst(os, amount, n))
  {
    SettleFirstParts(os, amount, n);
    forall i | 0 <= i < |os| && Ready(SettleFirst(os, amount, n)[i]) ensures Consistent(SettleFirst(os, amount, n)[i]) {
      SettleEach(os, amount, i);
    }
  }

  /** A submission that gets to its end moves exactly its amount. */
  lemma SettleWhole(os: seq<Order>, amount: nat)
    requires ReadyConsistent(os) && amount <= TotalAvailable(os)
    ensures SettleFirst(os, amount, |os|) == Settle(os, amount) && Shares(os, amount, |os|) == amount
    ensures ReadyConsistent(Settle(os, amount))
    ensures Pending(Settle(os, amount)) == Pending(os) - amount
    ensures Remitted(Settle(os, amount)) == Remitted(os) + amount
  {
    SettleFirstMoves(os, amount, |os|);
    SettleFirstParts(os, amount, |os|);
    SharesAddUp(os, amount, |os|);
    assert os[..|os|] == os && Settle(os, amount)[..|os|] == Settle(os, amount);
  }

  datatype Amount = Absent | Unreadable | Given(paise: int)

  datatype Reply = NothingReady | InvalidAmount | TooMuch(available: nat) | Submitted(total: int) | Failed

  /** The amount that the loop starts with, or why it does not start. */
  function Answer(os: seq<Order>, requested: Amount): Reply {
    var available := TotalAvailable(os);
    if available == 0 then NothingReady
    else if requested.Unreadable? || (requested.Given? && requested.paise <= 0) then InvalidAmount
    else
      var amount := if requested.Absent? then available else requested.paise;
      if amount > available then TooMuch(available) else Submitted(amount)
  }

  /** Cash ready to submit: what is pending of orders paid in cash, not cancelled and marked as collected. */
  lemma {:induction false} TotalAvailableConcat(a: seq<Order>, o: Order, b: seq<Order>)
    ensures TotalAvailable(a + [o] + b) == TotalAvailable(a + b)
              + if o.cod && !o.cancelled && o.marked && o.pending > 0 then o.pending else 0
    ensures TotalAvailable([]) == 0
  {
    var all, without := a + [o] + b, a + b;
    if b == [] {
      assert all[..|all| - 1] == a && without == a;
    } else {
      var n := |b| - 1;
      assert all[..|all| - 1] == a + [o] + b[..n] && without[..|without| - 1] == a + b[..n];
      TotalAvailableConcat(a, o, b[..n]);
    }
  }

  /** Which amount a request submits, or why it submits none. */
  lemma AnswerIs(os: seq<Order>, requested: Amount)
    ensures var available, answer := TotalAvailable(os), Answer(os, requested);
            && (answer == NothingReady <==> available == 0)
            && (available > 0 ==>
                  && (requested == Absent ==> answer == Submitted(available))
                  && (requested == Unreadable ==> answer == InvalidAmount)
                  && forall p :: requested == Given(p) ==>
                       && (p <= 0 ==> answer == InvalidAmount)
                       && (0 < p <= available ==> answer == Submitted(p))
                       && (p > available ==> answer == TooMuch(available)))
  {
  }

  /** An order that has no cash ready is left as it is, wherever the loop stops. */
  lemma NotReadyUntouched(os: seq<Order>, requested: Amount, down: set<nat>, i: nat)
    requires i < |os| && !(os[i].cod && !os[i].cancelled && os[i].marked && os[i].pending > 0)
    ensures OutcomeOf(os, requested, down).orders[i] == os[i]
  {
    var answer := Answer(os, requested);
    if answer.Submitted? { SettleFirstParts(os, answer.total, Stop(os, answer.total, down)); }
  }

  /** The orders after a submission, what it has remitted, and whether it got to its end and wrote the row for it. */
  datatype Outcome = Outcome(orders: seq<Order>, remitted: nat, recorded: bool)

  function OutcomeOf(os: seq<Order>, requested: Amount, down: set<nat>): (o: Outcome)
    ensures |o.orders| == |os|
  {
    var answer := Answer(os, requested);
    if !answer.Submitted? then Outcome(os, 0, false)
    else
      var amount: nat := answer.total;
      var stop := Stop(os, amount, down);
      Outcome(SettleFirst(os, amount, stop), Shares(os, amount, stop), stop == |os|)
  }

  /** A submission moves from pending to remitted what it has remitted, and all of its amount if it is recorded. */
  lemma OutcomeMoves(os: seq<Order>, requested: Amount, down: set<nat>)
    requires ReadyConsistent(os)
    ensures var o := OutcomeOf(os, requested, down);
            && ReadyConsistent(o.orders) && Pending(o.orders) == Pending(os) - o.remitted
            && Remitted(o.orders) == Remitted(os) + o.remitted
            && (o.recorded ==> o.remitted == Answer(os, requested).total)
  {
    var answer := Answer(os, requested);
    if answer.Submitted? {
      SettleFirstMoves(os, answer.total, Stop(os, answer.total, down));
      SettleWhole(os, answer.total);
    }
  }

  /** The orders after a run of submissions, the cash recorded as handed in, and the cash remitted without a record. */
  ghost function SubmitAll(os: seq<Order>, requests: seq<(Amount, set<nat>)>): (r: (seq<Order>, nat, nat))
    requires ReadyConsistent(os)
    ensures ReadyConsistent(r.0) && |r.0| == |os|
    ensures Pending(r.0) + r.1 + r.2 == Pending(os)
    ensures Pending(r.0) + r.1 == Pending(os) <==> r.2 == 0
  {
    if requests == [] then (os, 0, 0)
    else
      var (mid, handed, lost) := SubmitAll(os, requests[..|requests| - 1]);
      var o := OutcomeOf(mid, requests[|requests| - 1].0, requests[|requests| - 1].1);
      OutcomeMoves(mid, requests[|requests| - 1].0, requests[|requests| - 1].1);
      if o.recorded then (o.orders, handed + o.remitted, lost) else (o.orders, handed, lost + o.remitted)
  }

  class Rider {
    var orders: seq<Order>
    var cashInHand: nat
    var adminBalance: int
    /** Amounts of the Cash Settlement transactions. */
    var settlements: seq<int>

    /** reconcileCodCash: refuses an amount that is not positive or beyond what the order still owes. */
    method ReconcileCodCash(i: nat, amount: int) returns (ok: bool)
      requires i < |orders|
      modifies this`orders, this`cashInHand, this`adminBalance
      ensures ok <==> old(orders)[i].cod && 0 < amount <= old(orders)[i].collected - old(orders)[i].remitted
      ensures var o := old(orders)[i];
              orders == if ok then old(orders)[i := o.(remitted := o.remitted + amount,
                                                       pending := o.collected - o.remitted - amount)]
                        else old(orders)
      ensures ok ==> cashInHand == if amount < old(cashInHand) then old(cashInHand) - amount else 0
      ensures !ok ==> cashInHand == old(cashInHand)
      ensures adminBalance == if ok then old(adminBalance) + amount else old(adminBalance)
    {
      var o := orders[i];
      if !o.cod || amount <= 0 || amount > o.collected - o.remitted { return false; }
      cashInHand := Less(cashInHand, amount);
      adminBalance := adminBalance + amount;
      orders := orders[i := o.(remitted := o.remitted + amount, pending := o.collected - o.remitted - amount)];
      ok := true;
    }

    /** One turn of the loop; `down` says that the reconciliation fails for outside reasons. */
    method SettleOne(i: nat, remaining: nat, down: bool) returns (given: nat, ok: bool)
      requires i < |orders|
      modifies this`orders, this`cashInHand, this`adminBalance
      ensures var share := if Ready(old(orders)[i]) && remaining > 0 then Min(old(orders)[i].pending, remaining) else 0;
              && ok == !(share > 0 && (down || share > old(orders)[i].collected - old(orders)[i].remitted))
              && given == if ok then share else 0
      ensures orders == old(orders)[i := Remit(old(orders)[i], given)]
      ensures adminBalance == old(adminBalance) + given && cashInHand == Less(old(cashInHand), given)
    {
      given, ok := 0, true;
      if Ready(orders[i]) && remaining > 0 {
        var settleAmount := Min(orders[i].pending, remaining);
        ok := false;
        if !down { ok := ReconcileCodCash(i, settleAmount); }
        if ok { given := settleAmount; }
      }
    }

    /** The settling loop: each order in turn gives what it can towards the amount, until one of them throws. */
    method SettleOldestFirst(amountToSubmit: nat, down: set<nat>) returns (totalSubmitted: nat, ok: bool)
      modifies this`orders, this`cashInHand, this`adminBalance
      ensures var stop := Stop(old(orders), amountToSubmit, down);
              && ok == (stop == |old(orders)|)
              && orders == SettleFirst(old(orders), amountToSubmit, stop)
              && totalSubmitted == Shares(old(orders), amountToSubmit, stop)
      ensures adminBalance == old(adminBalance) + totalSubmitted
      ensures cashInHand == Less(old(cashInHand), totalSubmitted)
    {
      ghost var was := orders;
      totalSubmitted, ok := 0, true;
      var remaining: int := amountToSubmit;
      SharesAddUp(was, amountToSubmit, 0);
      for i := 0 to |orders|
        invariant |orders| == |was| && orders == SettleFirst(was, amountToSubmit, i) && ok
        invariant Stop(was, amountToSubmit, down) == StopFrom(was, amountToSubmit, down, i)
        invariant totalSubmitted == Shares(was, amountToSubmit, i) && remaining == amountToSubmit - totalSubmitted
        invariant remaining >= 0
        invariant adminBalance == old(adminBalance) + totalSubmitted
        invariant cashInHand == Less(old(cashInHand), totalSubmitted)
      {
        NextShare(was, amountToSubmit, i);
        SettleFirstNext(was, amountToSubmit, i);
        LessLess(old(cashInHand), totalSubmitted, Share(was, amountToSubmit, i));
        var given;
        given, ok := SettleOne(i, remaining, i in down);
        if !ok { return; }
        totalSubmitted := totalSubmitted + given;
        remaining := remaining - given;
        SharesAddUp(was, amountToSubmit, i + 1);
      }
    }

    /** The loop and, if it gets to its end, the settlement row for it. */
    method HandIn(amountToSubmit: nat, down: set<nat>) returns (ok: bool)
      requires 0 < amountToSubmit <= TotalAvailable(orders)
      modifies this
      ensures var stop := Stop(old(orders), amountToSubmit, down);
              var remitted: int := Shares(old(orders), amountToSubmit, stop);
              && ok == (stop == |old(orders)|)
              && orders == SettleFirst(old(orders), amountToSubmit, stop)
              && settlements == (if ok then old(settlements) + [-remitted] else old(settlements))
              && adminBalance == old(adminBalance) + remitted
              && cashInHand == Less(old(cashInHand), remitted)
    {
      var totalSubmitted;
      totalSubmitted, ok := SettleOldestFirst(amountToSubmit, down);
      if ok { settlements := settlements + [-(totalSubmitted as int)]; }
    }

    method Submit(requested: Amount, down: set<nat>) returns (reply: Reply)
      modifies this
      ensures var answer, o := Answer(old(orders), requested), OutcomeOf(old(orders), requested, down);
              && reply == (if answer.Submitted? && !o.recorded then Failed else answer)
              && orders == o.orders
              && settlements == (if o.recorded then old(settlements) + [-(o.remitted as int)] else old(settlements))
              && adminBalance == old(adminBalance) + o.remitted
              && cashInHand == Less(old(cashInHand), o.remitted)
    {
      var available := TotalAvailable(orders);
      if available == 0 { return NothingReady; }
      if requested.Unreadable? || (requested.Given? && requested.paise <= 0) { return InvalidAmount; }
      var amountToSubmit := if requested.Absent? then available else requested.paise;
      if amountToSubmit > available { return TooMuch(available); }
      var ok := HandIn(amountToSubmit, down);
      reply := if ok then Submitted(amountToSubmit) else Failed;
    }
  }

  /** updateCashInHand never goes below zero. */
  function Less(cash: nat, amount: nat): nat { if amount >= cash then 0 else cash - amount }

  lemma LessLess(cash: nat, a: nat, b: nat)
    ensures Less(Less(cash, a), b) == Less(cash, a + b)
  {
  }

  function Sum(xs: seq<int>): int { if xs == [] then 0 else Sum(xs[..|xs| - 1]) + xs[|xs| - 1] }

  lemma SumSnoc(xs: seq<int>, x: int)
    ensures Sum(xs + [x]) == Sum(xs) + x
  {
    assert (xs + [x])[..|xs|] == xs;
  }

  /**
   * Cash pending and settlement rows add up as before a submission exactly when it is recorded or has remitted nothing:
   * an exception in mid-loop leaves remitted cash without a row.
   */
  lemma RecordedIff(os: seq<Order>, requested: Amount, down: set<nat>, settlements: seq<int>)
    requires ReadyConsistent(os)
    ensures var o := OutcomeOf(os, requested, down);
            var rows := if o.recorded then settlements + [-(o.remitted as int)] else settlements;
            Pending(o.orders) - Sum(rows) == Pending(os) - Sum(settlements) <==> o.recorded || o.remitted == 0
  {
    OutcomeMoves(os, requested, down);
    SumSnoc(settlements, -(OutcomeOf(os, requested, down).remitted as int));
  }

  /** The second of two orders cannot be reconciled: the first stays remitted, and no row says so. */
  lemma RemittedWithoutRecord()
    ensures var o := Order(true, false, true, 500, 0, 500);
            var after := OutcomeOf([o, o], Absent, {1});
            ReadyConsistent([o, o]) && after.remitted == 500 && !after.recorded
  {
    var o := Order(true, false, true, 500, 0, 500);
    var os := [o, o];
    assert os[..0] == [] && os[..1] == [o] && [o][..0] == [] && os[..2] == os;
    assert TotalAvailable([o]) == 500 && TotalAvailable(os) == 1000;
    assert Share(os, 1000, 0) == 500 && Share(os, 1000, 1) == 500;
    assert !Throws(os, 1000, {1}, 0) && Throws(os, 1000, {1}, 1);
    assert StopFrom(os, 1000, {1}, 0) == StopFrom(os, 1000, {1}, 1) == 1;
    assert Shares(os, 1000, 1) == Shares(os, 1000, 0) + 500;
  }
}
