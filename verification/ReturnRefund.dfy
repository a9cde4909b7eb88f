/**
 * The transaction rows of one return: commission at pickup, and refund, debit and commission at QC. Amounts are 1/1000
 * paise.
 */
module ReturnRefund {
  import opened Wrappers

  datatype Status = InTransit | Returned | QcPassed | RefundCompleted | OtherStatus

  /** Price in paise, quantity in thousandths. */
  datatype Item = Item(price: nat, quantity: nat)

  /**
   * What a return is about: `given` is returnRefundAmount, 0 when missing; a party is present when its document is
   * found.
   */
  datatype Terms = Terms(given: nat, items: seq<Item>, commission: nat, customer: bool, seller: bool, rider: bool)

  /** `held`: the seller's payout is on hold; `pickupPaid`: the flag returnPickupCommissionOnRows. */
  datatype Order = Order(terms: Terms, status: Status, held: bool, pickupPaid: bool)

  /** The references of an order's rows; a transaction's reference is unique. */
  datatype Reference = RefWallet | RefSell | RetDel | RetPick

  type Rows = map<Reference, int>

  datatype Wallets = Wallets(customer: int, seller: int, rider: int)

  datatype Desk = Desk(order: Order, rows: Rows, wallets: Wallets)

  datatype Write = Row(reference: Reference) | Save

  /**
   * How the outside world answers one refund call: whether the seller's debit, the rider's credit and the cancelling of
   * a held payout go through (failures are only logged), and which write fails, if any (which ends the call).
   */
  datatype Luck = Luck(debits: bool, credits: bool, cancels: bool, fails: Option<Write>)

  function ItemsTotal(items: seq<Item>): nat {
    if items == [] then 0
    else ItemsTotal(items[..|items| - 1]) + items[|items| - 1].price * items[|items| - 1].quantity
  }

  function RefundAmount(t: Terms): nat { if t.given != 0 then t.given else ItemsTotal(t.items) }

  /** Number(x.toFixed(2)) */
  function RoundToPaise(x: nat): nat { (x + 500) / 1000 * 1000 }

  function Amount(rows: Rows, r: Reference): int { if r in rows then rows[r] else 0 }

  function CommissionOnRows(rows: Rows): int { Amount(rows, RetDel) + Amount(rows, RetPick) }

  function Total(rows: Rows): int { Amount(rows, RefWallet) + Amount(rows, RefSell) + CommissionOnRows(rows) }

  // ---------- pickup: the background job, write by write ----------

  predicate OwesPickup(loaded: Order) { loaded.terms.commission > 0 && loaded.terms.rider && !loaded.pickupPaid }

  /** The job's first half: the wallet, then the row, which is refused under a reference already used. */
  function PayPickup(d: Desk, loaded: Order, fails: bool): (Desk, bool) {
    if !OwesPickup(loaded) then (d, false)
    else
      var paid := d.(wallets := d.wallets.(rider := d.wallets.rider + loaded.terms.commission));
      if fails || RetPick in d.rows then (paid, false)
      else (paid.(rows := d.rows[RetPick := loaded.terms.commission]), true)
  }

  // ---------- the refund, row by row ----------

  function CustomerRow(t: Terms): Option<int> {
    if t.customer && RefundAmount(t) > 0 then Some(RoundToPaise(RefundAmount(t))) else None
  }

  function SellerRow(t: Terms): Option<int> {
    if t.seller && (RefundAmount(t) > 0 || t.commission > 0) then Some(-(RefundAmount(t) + t.commission)) else None
  }

  function RiderRow(o: Order): Option<int> {
    if o.terms.rider && o.terms.commission > 0 && !o.pickupPaid then Some(o.terms.commission) else None
  }

  function ValueOf(row: Option<int>): int { if row.Some? then row.value else 0 }

  /** The rows so far, and whether the call goes on. */
  datatype Written = Written(rows: Rows, ok: bool)

  /** One more row, if there is one and none before it was refused; a reference that is taken is refused. */
  function Add(w: Written, reference: Reference, row: Option<int>, fails: Option<Write>): Written {
    if row.None? || !w.ok then w
    else if reference in w.rows || fails == Some(Row(reference)) then w.(ok := false)
    else w.(rows := w.rows[reference := row.value])
  }

  function WithCustomer(rows: Rows, o: Order, fails: Option<Write>): Written {
    Add(Written(rows, true), RefWallet, CustomerRow(o.terms), fails)
  }

  function WithSeller(rows: Rows, o: Order, fails: Option<Write>): Written {
    Add(WithCustomer(rows, o, fails), RefSell, SellerRow(o.terms), fails)
  }

  function RefundRows(rows: Rows, o: Order, fails: Option<Write>): Written {
    Add(WithSeller(rows, o, fails), RetDel, RiderRow(o), fails)
  }

  /** Whether a call gets to its end and completes the order. */
  predicate Completes(rows: Rows, loaded: Order, fails: Option<Write>) {
    loaded.status == QcPassed && RefundRows(rows, loaded, fails).ok && fails != Some(Save)
  }

  datatype Stage = Stage(desk: Desk, ok: bool)

  /** The parts of a refund call. Each wallet moves before its row is written. */
  function CreditedCustomer(d: Desk, loaded: Order, luck: Luck): Stage {
    var w := Add(Written(d.rows, true), RefWallet, CustomerRow(loaded.terms), luck.fails);
    Stage(Desk(d.order, w.rows, d.wallets.(customer := d.wallets.customer + ValueOf(CustomerRow(loaded.terms)))), w.ok)
  }

  /** A payout on hold is cancelled; the seller is debited for one that is not. The row is written in both cases. */
  function AdjustedSeller(d: Desk, loaded: Order, luck: Luck): Stage {
    var w := Add(Written(d.rows, true), RefSell, SellerRow(loaded.terms), luck.fails);
    var debit := if !loaded.held && luck.debits then ValueOf(SellerRow(loaded.terms)) else 0;
    Stage(Desk(d.order.(held := d.order.held && !(SellerRow(loaded.terms).Some? && loaded.held && luck.cancels)),
               w.rows, d.wallets.(seller := d.wallets.seller + debit)), w.ok)
  }

  function CreditedRider(d: Desk, loaded: Order, luck: Luck): Stage {
    var w := Add(Written(d.rows, true), RetDel, RiderRow(loaded), luck.fails);
    var credit := if luck.credits then ValueOf(RiderRow(loaded)) else 0;
    Stage(Desk(d.order, w.rows, d.wallets.(rider := d.wallets.rider + credit)), w.ok)
  }

  /** completeReturnAndRefundLegacy on the order as it was loaded. */
  function Refund(d: Desk, loaded: Order, luck: Luck): Desk {
    if loaded.status != QcPassed then d
    else
      var a := CreditedCustomer(d, loaded, luck);
      if !a.ok then a.desk
      else
        var b := AdjustedSeller(a.desk, loaded, luck);
        if !b.ok then b.desk
        else
          var c := CreditedRider(b.desk, loaded, luck);
          if !c.ok || luck.fails == Some(Save) then c.desk
          else c.desk.(order := c.desk.order.(status := RefundCompleted))
  }

  lemma {:induction false} ItemsTotalConcat(a: seq<Item>, b: seq<Item>)
    ensures ItemsTotal(a + b) == ItemsTotal(a) + ItemsTotal(b)
  {
    if b == [] {
      assert a + b == a;
    } else {
      ItemsTotalConcat(a, b[..|b| - 1]);
      assert (a + b)[..|a + b| - 1] == a + b[..|b| - 1];
    }
  }

  /** The amount refunded: the one laid down for the return, or else what its items cost together. */
  lemma RefundAmountIs(t: Terms, item: Item)
    ensures t.given > 0 ==> RefundAmount(t) == t.given
    ensures t.given == 0 && t.items == [] ==> RefundAmount(t) == 0
    ensures t.given == 0 ==> RefundAmount(t.(items := t.items + [item])) == RefundAmount(t) + item.price * item.quantity
  {
    assert [item][..0] == [];
    ItemsTotalConcat(t.items, [item]);
  }

  /** What a call moves on the wallets, and what it does to a payout on hold, by how far it gets. */
  lemma RefundParties(d: Desk, loaded: Order, luck: Luck)
    requires loaded.status == QcPassed
    ensures var t, refund, commission := Refund(d, loaded, luck), RefundAmount(loaded.terms), loaded.terms.commission;
            var credits := loaded.terms.customer && refund > 0;
            var reachesSeller := credits ==> RefWallet !in d.rows && luck.fails != Some(Row(RefWallet));
            var adjusts := reachesSeller && loaded.terms.seller && refund + commission > 0;
            var reachesRider :=
              reachesSeller && (adjusts ==> RefSell !in d.rows && luck.fails != Some(Row(RefSell)));
            var pays := reachesRider && loaded.terms.rider && !loaded.pickupPaid;
            && t.wallets.customer == d.wallets.customer + (if credits then RoundToPaise(refund) else 0)
            && t.wallets.seller == d.wallets.seller -
                 (if adjusts && !loaded.held && luck.debits then refund + commission else 0)
            && t.order.held == (d.order.held && !(adjusts && loaded.held && luck.cancels))
            && t.wallets.rider == d.wallets.rider + (if pays && luck.credits then commission else 0)
  {
  }

  /** The rows a completed call writes, one for each party that is present and concerned. */
  lemma RowsWritten(d: Desk, loaded: Order, luck: Luck)
    requires Completes(d.rows, loaded, luck.fails)
    ensures var refund, commission := RefundAmount(loaded.terms), loaded.terms.commission;
            var customer, seller := loaded.terms.customer && refund > 0, loaded.terms.seller && refund + commission > 0;
            var rider := loaded.terms.rider && commission > 0 && !loaded.pickupPaid;
            var rows := RefundRows(d.rows, loaded, luck.fails).rows;
            && Refund(d, loaded, luck).rows == rows
            && (customer ==> RefWallet !in d.rows && RefWallet in rows && rows[RefWallet] == RoundToPaise(refund))
            && (seller ==> RefSell !in d.rows && RefSell in rows && rows[RefSell] == -(refund + commission))
            && (rider ==> RetDel !in d.rows && RetDel in rows && rows[RetDel] == commission)
            && (forall r :: r in d.rows ==> r in rows && rows[r] == d.rows[r])
            && (forall r :: r in rows && r !in d.rows ==>
                  (r == RefWallet && customer) || (r == RefSell && seller) || (r == RetDel && rider))
  {
    RefundOutcome(d, loaded, luck);
  }

  /** What the background job of a pickup does before it marks the order. */
  lemma PickupMoves(d: Desk, loaded: Order, fails: bool)
    ensures var (t, ok) := PayPickup(d, loaded, fails);
            var owes := loaded.terms.commission > 0 && loaded.terms.rider && !loaded.pickupPaid;
            && (ok <==> owes && !fails && RetPick !in d.rows)
            && t.order == d.order && t.wallets.customer == d.wallets.customer && t.wallets.seller == d.wallets.seller
            && t.wallets.rider == d.wallets.rider + (if owes then loaded.terms.commission else 0)
            && t.rows == if ok then d.rows[RetPick := loaded.terms.commission] else d.rows
  {
  }

  /** A refund call as a whole. */
  lemma RefundOutcome(d: Desk, loaded: Order, luck: Luck)
    ensures var t := Refund(d, loaded, luck);
            && t.order.terms == d.order.terms && t.order.pickupPaid == d.order.pickupPaid
            && t.order.status == (if Completes(d.rows, loaded, luck.fails) then RefundCompleted else d.order.status)
            && (loaded.status == QcPassed ==>
                  && t.rows == RefundRows(d.rows, loaded, luck.fails).rows
                  && t.wallets.customer == d.wallets.customer + ValueOf(CustomerRow(loaded.terms)))
  {
  }

  /** The handlers, step by step. */
  class ReturnDesk {
    var order: Order
    var rows: Rows
    var wallets: Wallets

    ghost function State(): Desk reads this { Desk(order, rows, wallets) }

    method CreateRow(reference: Reference, amount: int, fails: bool) returns (ok: bool)
      modifies this`rows
      ensures ok == (!fails && reference !in old(rows))
      ensures rows == if ok then old(rows)[reference := amount] else old(rows)
    {
      ok := !fails && reference !in rows;
      if ok { rows := rows[reference := amount]; }
    }

    /** The handler proper; the order as it is now goes to the background job. */
    method VerifyPickup() returns (loaded: Order)
      modifies this`order
      ensures loaded == order == old(order).(status := InTransit)
    {
      order := order.(status := InTransit);
      loaded := order;
    }

    /** The background job up to its row; `ok` says that the flag is to be written next. */
    method PayPickupCommission(loaded: Order, fails: bool) returns (ok: bool)
      modifies this
      ensures (State(), ok) == PayPickup(old(State()), loaded, fails)
    {
      ok := false;
      if loaded.terms.commission > 0 && loaded.terms.rider && !loaded.pickupPaid {
        wallets := wallets.(rider := wallets.rider + loaded.terms.commission);
        ok := CreateRow(RetPick, loaded.terms.commission, fails);
      }
    }

    method MarkPickupPaid()
      modifies this`order
      ensures order == old(order).(pickupPaid := true)
    {
      order := order.(pickupPaid := true);
    }

    method CreditCustomer(loaded: Order, refund: nat, luck: Luck) returns (ok: bool)
      requires refund == RefundAmount(loaded.terms)
      modifies this
      ensures Stage(State(), ok) == CreditedCustomer(old(State()), loaded, luck)
    {
      ok := true;
      if loaded.terms.customer && refund > 0 {
        wallets := wallets.(customer := wallets.customer + RoundToPaise(refund));
        ok := CreateRow(RefWallet, RoundToPaise(refund), luck.fails == Some(Row(RefWallet)));
      }
    }

    method AdjustSeller(loaded: Order, refund: nat, luck: Luck) returns (ok: bool)
      requires refund == RefundAmount(loaded.terms)
      modifies this
      ensures Stage(State(), ok) == AdjustedSeller(old(State()), loaded, luck)
    {
      ok := true;
      if loaded.terms.seller && (refund > 0 || loaded.terms.commission > 0) {
        var adjustment := if refund + loaded.terms.commission > 0 then refund + loaded.terms.commission else 0;
        if loaded.held {
          if luck.cancels { order := order.(held := false); }
        } else if luck.debits {
          wallets := wallets.(seller := wallets.seller - adjustment);
        }
        ok := CreateRow(RefSell, -adjustment, luck.fails == Some(Row(RefSell)));
      }
    }

    method CreditRider(loaded: Order, luck: Luck) returns (ok: bool)
      modifies this
      ensures Stage(State(), ok) == CreditedRider(old(State()), loaded, luck)
    {
      ok := true;
      if loaded.terms.rider && loaded.terms.commission > 0 && !loaded.pickupPaid {
        if luck.credits { wallets := wallets.(rider := wallets.rider + loaded.terms.commission); }
        ok := CreateRow(RetDel, loaded.terms.commission, luck.fails == Some(Row(RetDel)));
      }
    }

    method CompleteReturnAndRefund(loaded: Order, luck: Luck)
      modifies this
      ensures State() == Refund(old(State()), loaded, luck)
    {
      if loaded.status == RefundCompleted { return; }
      if loaded.status != QcPassed { return; }
      var refund := if loaded.terms.given != 0 then loaded.terms.given else ItemsTotal(loaded.terms.items);
      var ok := CreditCustomer(loaded, refund, luck);
      if !ok { return; }
      ok := AdjustSeller(loaded, refund, luck);
      if !ok { return; }
      ok := CreditRider(loaded, luck);
      if !ok || luck.fails == Some(Save) { return; }
      order := order.(status := RefundCompleted);
    }
  }

  // ---------- one refund call ----------

  ghost predicate AllPresent(t: Terms) { t.customer && t.seller && t.rider }

  /** Before QC the only row a return can have is the pickup's, whether or not the flag was written after it. */
  ghost predicate OnlyPickup(rows: Rows, commission: nat) {
    rows.Keys <= {RetPick} && (RetPick in rows ==> rows[RetPick] == commission)
  }

  lemma RowsTotal(rows: Rows, loaded: Order)
    requires OnlyPickup(rows, loaded.terms.commission)
    ensures var refund, commission := RefundAmount(loaded.terms), loaded.terms.commission;
            var now := RefundRows(rows, loaded, None);
            && now.ok
            && Total(now.rows) == (if loaded.terms.customer then RoundToPaise(refund) else 0)
                                  - (if loaded.terms.seller then refund + commission else 0)
                                  + CommissionOnRows(now.rows)
            && CommissionOnRows(now.rows) == (if loaded.terms.rider && !loaded.pickupPaid then commission else 0)
                                         + (if RetPick in rows then commission else 0)
  {
  }

  /** What a refund call adds, whoever is present: each party's row, and the commission by whether QC saw it paid. */
  lemma RefundTotal(d: Desk, loaded: Order, luck: Luck)
    requires OnlyPickup(d.rows, loaded.terms.commission) && loaded.status == QcPassed && luck.fails == None
    ensures var t, refund, commission := Refund(d, loaded, luck), RefundAmount(loaded.terms), loaded.terms.commission;
            && t.order.status == RefundCompleted
            && Total(t.rows) == (if loaded.terms.customer then RoundToPaise(refund) else 0)
                                - (if loaded.terms.seller then refund + commission else 0) + CommissionOnRows(t.rows)
            && CommissionOnRows(t.rows) == (if loaded.terms.rider && !loaded.pickupPaid then commission else 0)
                                       + (if RetPick in d.rows then commission else 0)
  {
    RefundOutcome(d, loaded, luck);
    RowsTotal(d.rows, loaded);
  }

  /**
   * With all parties present the rows sum to zero exactly when rounding makes up for what the commission is off by; for
   * a commission of whole paise, exactly when the refund is whole paise, too, and QC's order says that the pickup was
   * paid just when there is a row for it.
   */
  lemma ZeroSumIff(d: Desk, loaded: Order, luck: Luck)
    requires OnlyPickup(d.rows, loaded.terms.commission) && loaded.status == QcPassed && luck.fails == None
    requires AllPresent(loaded.terms)
    ensures var refund, commission := RefundAmount(loaded.terms), loaded.terms.commission;
            var seen, row := loaded.pickupPaid, RetPick in d.rows;
            && (Total(Refund(d, loaded, luck).rows) == 0
                <==> RoundToPaise(refund) + (if seen then 0 else commission) + (if row then commission else 0)
                     == refund + commission)
            && (commission % 1000 == 0 ==>
                  (Total(Refund(d, loaded, luck).rows) == 0
                   <==> refund % 1000 == 0 && (commission == 0 || (seen <==> row))))
  {
    RefundTotal(d, loaded, luck);
    WholePaise(RefundAmount(loaded.terms));
  }

  lemma WholePaise(x: nat)
    ensures -500 < RoundToPaise(x) - x <= 500 && RoundToPaise(x) % 1000 == 0
    ensures RoundToPaise(x) == x <==> x % 1000 == 0
  {
    assert x == x / 1000 * 1000 + x % 1000;
  }

  /** Where no wallet fails and no payout is on hold, a call that completes the order moves each wallet by its row. */
  lemma WalletsFollowRows(d: Desk, loaded: Order, luck: Luck)
    requires Completes(d.rows, loaded, luck.fails) && luck.debits && luck.credits && !loaded.held
    ensures var t := Refund(d, loaded, luck);
            && t.wallets.customer - d.wallets.customer == Amount(t.rows, RefWallet) - Amount(d.rows, RefWallet)
            && t.wallets.seller - d.wallets.seller == Amount(t.rows, RefSell) - Amount(d.rows, RefSell)
            && t.wallets.rider - d.wallets.rider == Amount(t.rows, RetDel) - Amount(d.rows, RetDel)
  {
  }

  /** Fractional quantities: the customer's row is rounded to paise and the seller's is not. */
  lemma RoundingLeavesADifference()
    ensures var o := Order(Terms(0, [Item(999, 333)], 0, true, true, true), QcPassed, false, false);
            && RefundAmount(o.terms) == 332667
            && Total(Refund(Desk(o, map[], Wallets(0, 0, 0)), o, Luck(true, true, true, None)).rows) == 333
  {
    var o := Order(Terms(0, [Item(999, 333)], 0, true, true, true), QcPassed, false, false);
    assert [Item(999, 333)][..0] == [];
    assert ItemsTotal(o.terms.items) == 332667;
    RefundTotal(Desk(o, map[], Wallets(0, 0, 0)), o, Luck(true, true, true, None));
  }

  // ---------- calling again ----------

  /** n calls in turn, each on the order as it is stored by then. */
  ghost function Refunds(d: Desk, luck: Luck, n: nat): Desk {
    if n == 0 then d else Refund(Refunds(d, luck, n - 1), Refunds(d, luck, n - 1).order, luck)
  }

  /** A call that is refused leaves the order QcPassed, with its row still in the way of the next call. */
  lemma CallCredits(d: Desk, luck: Luck)
    requires d.order.status == QcPassed && luck.fails == None
    ensures var t, ok := Refund(d, d.order, luck), Completes(d.rows, d.order, None);
            && t.order == d.order.(status := if ok then RefundCompleted else QcPassed, held := t.order.held)
            && t.wallets.customer == d.wallets.customer + ValueOf(CustomerRow(d.order.terms))
            && (!ok ==> !Completes(t.rows, t.order, None))
  {
  }

  /** While the order stays QcPassed every call credits the customer, before its row can be refused. */
  lemma {:induction false} CallsCredit(d: Desk, luck: Luck, n: nat)
    requires d.order.status == QcPassed && luck.fails == None && n > 0
    ensures var t, ok := Refunds(d, luck, n), Completes(d.rows, d.order, None);
            && t.order == d.order.(status := if ok then RefundCompleted else QcPassed, held := t.order.held)
            && t.wallets.customer - d.wallets.customer
               == (if ok then ValueOf(CustomerRow(d.order.terms)) else n * ValueOf(CustomerRow(d.order.terms)))
            && (if ok then t == Refunds(d, luck, 1) else !Completes(t.rows, t.order, None))
  {
    if n == 1 {
      assert Refunds(d, luck, 0) == d;
      CallCredits(d, luck);
    } else {
      CallsCredit(d, luck, n - 1);
      if !Completes(d.rows, d.order, None) {
        CallCredits(Refunds(d, luck, n - 1), luck);
        OneMore(n, ValueOf(CustomerRow(d.order.terms)));
      }
    }
  }

  lemma OneMore(n: nat, credit: int)
    requires n > 0
    ensures n * credit == (n - 1) * credit + credit
  {
  }

  /**
   * Calls in turn, each on the order as stored: a further one leaves the customer's wallet alone exactly when the first
   * call completed, or there is no credit.
   */
  lemma RetryHarmlessIff(d: Desk, luck: Luck, n: nat)
    requires d.order.status == QcPassed && luck.fails == None && n > 1
    ensures Refunds(d, luck, n).wallets.customer == Refunds(d, luck, 1).wallets.customer
       <==> Completes(d.rows, d.order, None) || ValueOf(CustomerRow(d.order.terms)) == 0
  {
    CallsCredit(d, luck, 1);
    CallsCredit(d, luck, n);
    if !Completes(d.rows, d.order, None) { MoreThanOne(n, ValueOf(CustomerRow(d.order.terms))); }
  }

  lemma MoreThanOne(n: nat, credit: int)
    requires n > 1
    ensures n * credit == 1 * credit <==> credit == 0
  {
  }

  // ---------- pickups, QC and refunds racing ----------

  /** A background job of the pickup: yet to pay, paid but not marked, or at its end. */
  datatype Job = Waiting(order: Order) | Unmarked | Ended

  /** A QC handler: the order loaded, the order saved as passed, or at its end. */
  datatype Call = Opened(order: Order) | Passed(order: Order) | Over

  /** `settled` is the order as the call that completed the refund had loaded it. */
  datatype Race = Race(desk: Desk, jobs: seq<Job>, calls: seq<Call>, settled: Option<Order>)

  datatype Step = PickUp | Pay(i: nat, failed: bool) | Mark(i: nat) | DropJob(i: nat)
                | DropOff | Load | Pass(i: nat) | Settle(i: nat, luck: Luck) | DropCall(i: nat)

  function Next(s: Race, step: Step): Race {
    match step
    case PickUp =>
      var order := s.desk.order.(status := InTransit);
      s.(desk := s.desk.(order := order), jobs := s.jobs + [Waiting(order)])
    case Pay(i, failed) =>
      if i < |s.jobs| && s.jobs[i].Waiting? then
        var (desk, ok) := PayPickup(s.desk, s.jobs[i].order, failed);
        s.(desk := desk, jobs := s.jobs[i := if ok then Unmarked else Ended])
      else s
    case Mark(i) =>
      if i < |s.jobs| && s.jobs[i].Unmarked? then
        s.(desk := s.desk.(order := s.desk.order.(pickupPaid := true)), jobs := s.jobs[i := Ended])
      else s
    case DropJob(i) => if i < |s.jobs| then s.(jobs := s.jobs[i := Ended]) else s
    case DropOff => s.(desk := s.desk.(order := s.desk.order.(status := Returned)))
    case Load => if s.desk.order.status == Returned then s.(calls := s.calls + [Opened(s.desk.order)]) else s
    case Pass(i) =>
      if i < |s.calls| && s.calls[i].Opened? then
        s.(desk := s.desk.(order := s.desk.order.(status := QcPassed)),
           calls := s.calls[i := Passed(s.calls[i].order.(status := QcPassed))])
      else s
    case Settle(i, luck) =>
      if i < |s.calls| && s.calls[i].Passed? then
        var loaded := s.calls[i].order;
        Race(Refund(s.desk, loaded, luck), s.jobs, s.calls[i := Over],
             if Completes(s.desk.rows, loaded, luck.fails) then Some(loaded) else s.settled)
      else s
    case DropCall(i) => if i < |s.calls| then s.(calls := s.calls[i := Over]) else s
  }

  function End(s: Race, steps: seq<Step>): Race
    decreases |steps|
  {
    if steps == [] then s else End(Next(s, steps[0]), steps[1..])
  }

  ghost predicate Start(s: Race) {
    && s.desk.rows == map[] && !s.desk.order.pickupPaid && s.desk.order.status == OtherStatus
    && s.jobs == [] && s.calls == [] && s.settled == None && AllPresent(s.desk.order.terms)
  }

  /** An order as some handler has it: it is of this return, and a flag in it has a row behind it. */
  ghost predicate Known(s: Race, p: Order) {
    p.terms == s.desk.order.terms && (p.pickupPaid ==> RetPick in s.desk.rows)
  }

  ghost predicate RowsOk(o: Order, rows: Rows) {
    && (RefWallet in rows ==> CustomerRow(o.terms) == Some(rows[RefWallet]))
    && (RefSell in rows ==> SellerRow(o.terms) == Some(rows[RefSell]))
    && (RetDel in rows ==> o.terms.commission > 0 && rows[RetDel] == o.terms.commission && RefSell in rows)
    && (RetPick in rows ==> o.terms.commission > 0 && rows[RetPick] == o.terms.commission)
  }

  /** What completing with the given order has put into the rows. */
  ghost predicate Settled(rows: Rows, p: Order) {
    && (RefWallet in rows <==> CustomerRow(p.terms).Some?) && (RefSell in rows <==> SellerRow(p.terms).Some?)
    && (RetDel in rows <==> RiderRow(p).Some?)
  }

  ghost predicate Inv(s: Race) {
    && AllPresent(s.desk.order.terms) && Known(s, s.desk.order) && RowsOk(s.desk.order, s.desk.rows)
    && (forall i :: 0 <= i < |s.jobs| ==> !s.jobs[i].Ended? ==>
          if s.jobs[i].Waiting? then Known(s, s.jobs[i].order) else RetPick in s.desk.rows)
    && (forall i :: 0 <= i < |s.calls| && !s.calls[i].Over? ==> Known(s, s.calls[i].order))
    && (s.settled.Some? ==> Known(s, s.settled.value) && Settled(s.desk.rows, s.settled.value))
  }

  lemma RefundKeepsRows(o: Order, rows: Rows, loaded: Order, fails: Option<Write>)
    requires AllPresent(o.terms) && RowsOk(o, rows) && loaded.terms == o.terms
    ensures var now := RefundRows(rows, loaded, fails);
            && RowsOk(o, now.rows) && rows.Keys <= now.rows.Keys && (RetPick in now.rows <==> RetPick in rows)
            && (now.ok ==> Settled(now.rows, loaded))
            && (RefSell in rows && !now.ok ==> (RetDel in now.rows <==> RetDel in rows))
  {
  }

  lemma SettleKeepsInv(s: Race, i: nat, luck: Luck)
    requires Inv(s) && i < |s.calls| && s.calls[i].Passed?
    ensures Inv(Next(s, Settle(i, luck)))
  {
    RefundOutcome(s.desk, s.calls[i].order, luck);
    RefundKeepsRows(s.desk.order, s.desk.rows, s.calls[i].order, luck.fails);
  }

  lemma StepKeepsInv(s: Race, step: Step)
    requires Inv(s)
    ensures Inv(Next(s, step))
  {
    if step.Settle? && step.i < |s.calls| && s.calls[step.i].Passed? {
      SettleKeepsInv(s, step.i, step.luck);
    }
  }

  lemma {:induction false} RunKeepsInv(s: Race, steps: seq<Step>)
    requires Inv(s)
    ensures Inv(End(s, steps))
    decreases |steps|
  {
    if steps != [] {
      StepKeepsInv(s, steps[0]);
      RunKeepsInv(Next(s, steps[0]), steps[1..]);
    }
  }

  /**
   * However pickups, flags, QC handlers and failures interleave: once a refund has completed there is one commission
   * row, and a second one exactly if the pickup has its row and the completing call had not seen the flag.
   */
  lemma RaceSettles(start: Race, steps: seq<Step>)
    requires Start(start) && End(start, steps).settled.Some?
    ensures var s := End(start, steps);
            var refund, commission := RefundAmount(start.desk.order.terms), start.desk.order.terms.commission;
            var seen := s.settled.value.pickupPaid;
            && CommissionOnRows(s.desk.rows) == commission + (if RetPick in s.desk.rows && !seen then commission else 0)
            && Total(s.desk.rows) == RoundToPaise(refund) - refund + CommissionOnRows(s.desk.rows) - commission
            && (commission % 1000 == 0 ==>
                  (Total(s.desk.rows) == 0
                   <==> refund % 1000 == 0 && (commission == 0 || (seen <==> RetPick in s.desk.rows))))
  {
    RunKeepsInv(start, steps);
    RunSameReturn(start, steps);
    WholePaise(RefundAmount(start.desk.order.terms));
  }

  lemma StepSameReturn(s: Race, step: Step)
    ensures Next(s, step).desk.order.terms == s.desk.order.terms
  {
    if step.Settle? && step.i < |s.calls| && s.calls[step.i].Passed? {
      RefundOutcome(s.desk, s.calls[step.i].order, step.luck);
    }
  }

  lemma {:induction false} RunSameReturn(s: Race, steps: seq<Step>)
    ensures End(s, steps).desk.order.terms == s.desk.order.terms
    decreases |steps|
  {
    if steps != [] {
      StepSameReturn(s, steps[0]);
      RunSameReturn(Next(s, steps[0]), steps[1..]);
    }
  }

  const UP_TO_QC: seq<Step> := [PickUp, Pay(0, false), DropOff, Load, Mark(0), Pass(0)]

  lemma PickupPaid(o: Order)
    requires !o.pickupPaid && o.terms.rider && o.terms.commission > 0
    ensures var c := o.terms.commission;
            var desk := Desk(o.(status := InTransit), map[RetPick := c], Wallets(0, 0, c));
            End(Race(Desk(o, map[], Wallets(0, 0, 0)), [], [], None), [PickUp, Pay(0, false)])
              == Race(desk, [Unmarked], [], None)
  {
    EndTwo(Race(Desk(o, map[], Wallets(0, 0, 0)), [], [], None), PickUp, Pay(0, false));
  }

  lemma LoadedForQc(desk: Desk)
    requires !desk.order.pickupPaid
    ensures var order := desk.order.(status := Returned);
            End(Race(desk, [Unmarked], [], None), [DropOff, Load])
              == Race(desk.(order := order), [Unmarked], [Opened(order)], None)
  {
    EndTwo(Race(desk, [Unmarked], [], None), DropOff, Load);
  }

  lemma MarkedTooLate(desk: Desk, loaded: Order)
    ensures End(Race(desk, [Unmarked], [Opened(loaded)], None), [Mark(0), Pass(0)])
         == Race(desk.(order := desk.order.(pickupPaid := true, status := QcPassed)), [Ended],
                 [Passed(loaded.(status := QcPassed))], None)
  {
    EndTwo(Race(desk, [Unmarked], [Opened(loaded)], None), Mark(0), Pass(0));
  }

  /** QC loads the order between the pickup's row and its flag. */
  lemma RaceToQc(o: Order)
    requires !o.pickupPaid && o.terms.rider && o.terms.commission > 0
    ensures End(Race(Desk(o, map[], Wallets(0, 0, 0)), [], [], None), UP_TO_QC) == LateRace(o)
  {
    var start := Race(Desk(o, map[], Wallets(0, 0, 0)), [], [], None);
    var paid := Desk(o.(status := InTransit), map[RetPick := o.terms.commission], Wallets(0, 0, o.terms.commission));
    assert UP_TO_QC == [PickUp, Pay(0, false)] + ([DropOff, Load] + [Mark(0), Pass(0)]);
    EndConcat(start, [PickUp, Pay(0, false)], [DropOff, Load] + [Mark(0), Pass(0)]);
    PickupPaid(o);
    EndConcat(Race(paid, [Unmarked], [], None), [DropOff, Load], [Mark(0), Pass(0)]);
    LoadedForQc(paid);
    MarkedTooLate(paid.(order := paid.order.(status := Returned)), paid.order.(status := Returned));
  }

  /** The flag is set, but not in the order that QC is about to refund. */
  function LateRace(o: Order): Race {
    Race(Desk(o.(status := QcPassed, pickupPaid := true), map[RetPick := o.terms.commission],
              Wallets(0, 0, o.terms.commission)),
         [Ended], [Passed(o.(status := QcPassed))], None)
  }

  /** That alone has the rider paid twice, with nothing failing and the flag set in the end. */
  lemma RacePaysTwice(o: Order, luck: Luck)
    requires AllPresent(o.terms) && !o.pickupPaid && o.status == OtherStatus && o.terms.commission > 0
    requires luck.fails == None
    ensures var start := Race(Desk(o, map[], Wallets(0, 0, 0)), [], [], None);
            var s := End(start, UP_TO_QC + [Settle(0, luck)]);
            && Start(start) && s.desk.order.status == RefundCompleted && s.desk.order.pickupPaid
            && CommissionOnRows(s.desk.rows) == 2 * o.terms.commission
  {
    var start := Race(Desk(o, map[], Wallets(0, 0, 0)), [], [], None);
    EndConcat(start, UP_TO_QC, [Settle(0, luck)]);
    RaceToQc(o);
    EndOne(LateRace(o), Settle(0, luck));
    LateRefund(LateRace(o).desk, o.(status := QcPassed), luck);
  }

  lemma LateRefund(d: Desk, loaded: Order, luck: Luck)
    requires OnlyPickup(d.rows, loaded.terms.commission) && RetPick in d.rows && loaded.terms.rider
    requires loaded.status == QcPassed && !loaded.pickupPaid && luck.fails == None
    ensures var t := Refund(d, loaded, luck);
            && t.order.status == RefundCompleted && t.order.pickupPaid == d.order.pickupPaid
            && CommissionOnRows(t.rows) == 2 * loaded.terms.commission
  {
    RefundTotal(d, loaded, luck);
    RefundOutcome(d, loaded, luck);
  }

  lemma EndOne(s: Race, a: Step)
    ensures End(s, [a]) == Next(s, a)
  {
    assert [a][1..] == [] && End(Next(s, a), []) == Next(s, a);
  }

  lemma EndTwo(s: Race, a: Step, b: Step)
    ensures End(s, [a, b]) == Next(Next(s, a), b)
  {
    assert [a, b][1..] == [b];
    EndOne(Next(s, a), b);
  }

  lemma {:induction false} EndConcat(s: Race, first: seq<Step>, rest: seq<Step>)
    ensures End(s, first + rest) == End(End(s, first), rest)
    decreases |first|
  {
    if first == [] {
      assert first + rest == rest;
    } else {
      assert (first + rest)[1..] == first[1..] + rest;
      EndConcat(Next(s, first[0]), first[1..], rest);
    }
  }

  // ---------- the wallets over a run ----------

  predicate Pays(s: Race, step: Step) {
    step.Pay? && step.i < |s.jobs| && s.jobs[step.i].Waiting? && OwesPickup(s.jobs[step.i].order)
  }

  predicate Calls(s: Race, step: Step) { step.Settle? && step.i < |s.calls| && s.calls[step.i].Passed? }

  /** Whether a refund call gets as far as the rider's commission. */
  predicate ReachesRider(s: Race, step: Step)
    requires Calls(s, step)
  {
    var loaded := s.calls[step.i].order;
    WithSeller(s.desk.rows, loaded, step.luck.fails).ok && RiderRow(loaded).Some?
  }

  predicate CreditsRider(s: Race, step: Step) {
    Pays(s, step) || (Calls(s, step) && ReachesRider(s, step) && step.luck.credits)
  }

  /** Whether a step writes a commission row. */
  predicate WritesCommission(s: Race, step: Step) {
    || (Pays(s, step) && !step.failed && RetPick !in s.desk.rows)
    || (Calls(s, step) && ReachesRider(s, step) && RetDel !in s.desk.rows && step.luck.fails != Some(Row(RetDel)))
  }

  function One(b: bool): nat { if b then 1 else 0 }

  /** How many steps of a run credit the rider, credit the customer, or write a commission row. */
  function RiderCredits(s: Race, steps: seq<Step>): nat
    decreases |steps|
  {
    if steps == [] then 0 else One(CreditsRider(s, steps[0])) + RiderCredits(Next(s, steps[0]), steps[1..])
  }

  function CommissionRows(s: Race, steps: seq<Step>): nat
    decreases |steps|
  {
    if steps == [] then 0 else One(WritesCommission(s, steps[0])) + CommissionRows(Next(s, steps[0]), steps[1..])
  }

  function CustomerCredits(s: Race, steps: seq<Step>): nat
    decreases |steps|
  {
    if steps == [] then 0 else One(Calls(s, steps[0])) + CustomerCredits(Next(s, steps[0]), steps[1..])
  }

  ghost predicate CallsPassed(s: Race) {
    forall i :: 0 <= i < |s.calls| && s.calls[i].Passed? ==> s.calls[i].order.status == QcPassed
  }

  lemma RefundCreditsRider(d: Desk, loaded: Order, luck: Luck)
    requires loaded.status == QcPassed
    ensures var reached := WithSeller(d.rows, loaded, luck.fails).ok && RiderRow(loaded).Some?;
            Refund(d, loaded, luck).wallets.rider
              == d.wallets.rider + (if reached && luck.credits then loaded.terms.commission else 0)
  {
  }

  lemma RowsPayRider(rows: Rows, loaded: Order, fails: Option<Write>)
    ensures var reached := WithSeller(rows, loaded, fails).ok && RiderRow(loaded).Some?;
            var written := reached && RetDel !in rows && fails != Some(Row(RetDel));
            CommissionOnRows(RefundRows(rows, loaded, fails).rows)
              == CommissionOnRows(rows) + (if written then loaded.terms.commission else 0)
  {
  }

  /** What one refund call does to the rider's wallet and row. */
  lemma RefundPaysRider(d: Desk, loaded: Order, luck: Luck)
    requires loaded.status == QcPassed
    ensures var reached := WithSeller(d.rows, loaded, luck.fails).ok && RiderRow(loaded).Some?;
            var written := reached && RetDel !in d.rows && luck.fails != Some(Row(RetDel));
            && Refund(d, loaded, luck).wallets.rider
               == d.wallets.rider + (if reached && luck.credits then loaded.terms.commission else 0)
            && CommissionOnRows(Refund(d, loaded, luck).rows)
               == CommissionOnRows(d.rows) + (if written then loaded.terms.commission else 0)
  {
    RefundCreditsRider(d, loaded, luck);
    RefundOutcome(d, loaded, luck);
    RowsPayRider(d.rows, loaded, luck.fails);
  }

  lemma StepPaysRider(s: Race, step: Step)
    requires Inv(s) && CallsPassed(s)
    ensures CallsPassed(Next(s, step))
    ensures var t, commission := Next(s, step), s.desk.order.terms.commission;
            && t.desk.wallets.rider == s.desk.wallets.rider + (if CreditsRider(s, step) then commission else 0)
            && CommissionOnRows(t.desk.rows)
               == CommissionOnRows(s.desk.rows) + (if WritesCommission(s, step) then commission else 0)
  {
    if Calls(s, step) { RefundPaysRider(s.desk, s.calls[step.i].order, step.luck); }
  }

  lemma StepPaysCustomer(s: Race, step: Step)
    requires Inv(s) && CallsPassed(s)
    ensures Next(s, step).desk.wallets.customer
         == s.desk.wallets.customer + if Calls(s, step) then ValueOf(CustomerRow(s.desk.order.terms)) else 0
  {
    if Calls(s, step) { RefundOutcome(s.desk, s.calls[step.i].order, step.luck); }
  }

  lemma Times(b: bool, n: nat, x: int)
    ensures (One(b) + n) * x == (if b then x else 0) + n * x
  {
  }

  /** Over every run: the rider's wallet rises by a commission for each credit, and the rows by one for each written. */
  lemma {:induction false} RiderWallet(s: Race, steps: seq<Step>)
    requires Inv(s) && CallsPassed(s)
    ensures var t, commission := End(s, steps), s.desk.order.terms.commission;
            && t.desk.wallets.rider == s.desk.wallets.rider + RiderCredits(s, steps) * commission
            && CommissionOnRows(t.desk.rows) == CommissionOnRows(s.desk.rows) + CommissionRows(s, steps) * commission
    decreases |steps|
  {
    if steps != [] {
      var next := Next(s, steps[0]);
      StepKeepsInv(s, steps[0]);
      StepSameReturn(s, steps[0]);
      StepPaysRider(s, steps[0]);
      RiderWallet(next, steps[1..]);
      Times(CreditsRider(s, steps[0]), RiderCredits(next, steps[1..]), s.desk.order.terms.commission);
      Times(WritesCommission(s, steps[0]), CommissionRows(next, steps[1..]), s.desk.order.terms.commission);
    }
  }

  /** Over every run: the customer's wallet rises by the refund for every call that QC has passed on. */
  lemma {:induction false} CustomerWallet(s: Race, steps: seq<Step>)
    requires Inv(s) && CallsPassed(s)
    ensures End(s, steps).desk.wallets.customer
         == s.desk.wallets.customer + CustomerCredits(s, steps) * ValueOf(CustomerRow(s.desk.order.terms))
    decreases |steps|
  {
    if steps != [] {
      var next, credit := Next(s, steps[0]), ValueOf(CustomerRow(s.desk.order.terms));
      StepKeepsInv(s, steps[0]);
      StepSameReturn(s, steps[0]);
      StepPaysRider(s, steps[0]);
      StepPaysCustomer(s, steps[0]);
      CustomerWallet(next, steps[1..]);
      Times(Calls(s, steps[0]), CustomerCredits(next, steps[1..]), credit);
    }
  }

  /** How many credits of a run have their row refused, and how many rows lack their credit. */
  function RefusedRows(s: Race, steps: seq<Step>): nat
    decreases |steps|
  {
    if steps == [] then 0
    else One(CreditsRider(s, steps[0]) && !WritesCommission(s, steps[0])) + RefusedRows(Next(s, steps[0]), steps[1..])
  }

  function MissingCredits(s: Race, steps: seq<Step>): nat
    decreases |steps|
  {
    if steps == [] then 0
    else
      One(WritesCommission(s, steps[0]) && !CreditsRider(s, steps[0])) + MissingCredits(Next(s, steps[0]), steps[1..])
  }

  lemma {:induction false} CreditsAndRows(s: Race, steps: seq<Step>)
    ensures RiderCredits(s, steps) + MissingCredits(s, steps) == CommissionRows(s, steps) + RefusedRows(s, steps)
    decreases |steps|
  {
    if steps != [] { CreditsAndRows(Next(s, steps[0]), steps[1..]); }
  }

  /**
   * Once a refund has completed there are one or two commission rows. The rider's wallet has risen by one commission
   * exactly when the credits that lack their row, and a second row, are made up for by rows that lack their credit.
   */
  lemma RiderPaidOnceIff(start: Race, steps: seq<Step>)
    requires Start(start) && start.desk.order.terms.commission > 0 && End(start, steps).settled.Some?
    ensures var s, commission := End(start, steps), start.desk.order.terms.commission;
            var rise, twice := s.desk.wallets.rider - start.desk.wallets.rider,
                               RetPick in s.desk.rows && !s.settled.value.pickupPaid;
            && rise == RiderCredits(start, steps) * commission
            && CommissionRows(start, steps) == 1 + One(twice)
            && (rise == commission <==> RefusedRows(start, steps) + One(twice) == MissingCredits(start, steps))
            && (rise == CommissionOnRows(s.desk.rows) <==> RefusedRows(start, steps) == MissingCredits(start, steps))
  {
    var commission, s := start.desk.order.terms.commission, End(start, steps);
    RaceSettles(start, steps);
    RiderWallet(start, steps);
    CreditsAndRows(start, steps);
    var twice := RetPick in s.desk.rows && !s.settled.value.pickupPaid;
    SameMultiple(CommissionRows(start, steps), 1 + One(twice), commission);
    SameMultiple(RiderCredits(start, steps), 1, commission);
    SameMultiple(RiderCredits(start, steps), CommissionRows(start, steps), commission);
  }

  lemma SameMultiple(m: nat, n: nat, x: int)
    requires x != 0
    ensures m * x == n * x <==> m == n
  {
    if m != n { assert (m - n) * x != 0; }
  }

  /** The customer has been paid once exactly when one call was passed on, and as the row says when it wrote the row. */
  lemma CustomerPaidOnceIff(start: Race, steps: seq<Step>)
    requires Start(start) && ValueOf(CustomerRow(start.desk.order.terms)) > 0
    ensures var s, credit := End(start, steps), ValueOf(CustomerRow(start.desk.order.terms));
            var rise, calls := s.desk.wallets.customer - start.desk.wallets.customer, CustomerCredits(start, steps);
            && (rise == credit <==> calls == 1)
            && (rise == Amount(s.desk.rows, RefWallet) <==> calls == One(RefWallet in s.desk.rows))
  {
    var credit := ValueOf(CustomerRow(start.desk.order.terms));
    CustomerWallet(start, steps);
    RunKeepsInv(start, steps);
    RunSameReturn(start, steps);
    SameMultiple(CustomerCredits(start, steps), 1, credit);
    SameMultiple(CustomerCredits(start, steps), One(RefWallet in End(start, steps).desk.rows), credit);
  }

  // ---------- orderly runs ----------

  ghost predicate AllEnded(jobs: seq<Job>) { forall i :: 0 <= i < |jobs| ==> jobs[i].Ended? }

  /** QC starts when every pickup job has ended and the flag says whether there is a row; no pickup comes after that. */
  ghost predicate Orderly(s: Race, step: Step) {
    && (step.Load? ==> AllEnded(s.jobs) && (s.desk.order.pickupPaid <==> RetPick in s.desk.rows))
    && (step.PickUp? ==> s.calls == [])
  }

  ghost predicate OrderlyRun(s: Race, steps: seq<Step>)
    decreases |steps|
  {
    steps == [] || (Orderly(s, steps[0]) && OrderlyRun(Next(s, steps[0]), steps[1..]))
  }

  ghost predicate Seen(s: Race, p: Order) { p.pickupPaid <==> RetPick in s.desk.rows }

  ghost predicate SeenByAll(s: Race) {
    && (s.settled.Some? ==> s.calls != [] && Seen(s, s.settled.value))
    && (s.calls != [] ==> AllEnded(s.jobs))
    && (forall i :: 0 <= i < |s.calls| && !s.calls[i].Over? ==> Seen(s, s.calls[i].order))
  }

  lemma OrderlyStep(s: Race, step: Step)
    requires Inv(s) && SeenByAll(s) && Orderly(s, step)
    ensures SeenByAll(Next(s, step))
  {
    if step.Settle? && step.i < |s.calls| && s.calls[step.i].Passed? {
      RefundOutcome(s.desk, s.calls[step.i].order, step.luck);
      RefundKeepsRows(s.desk.order, s.desk.rows, s.calls[step.i].order, step.luck.fails);
    }
  }

  lemma {:induction false} OrderlyRunSeen(s: Race, steps: seq<Step>)
    requires Inv(s) && SeenByAll(s) && OrderlyRun(s, steps)
    ensures SeenByAll(End(s, steps))
    decreases |steps|
  {
    if steps != [] {
      StepKeepsInv(s, steps[0]);
      OrderlyStep(s, steps[0]);
      OrderlyRunSeen(Next(s, steps[0]), steps[1..]);
    }
  }

  /**
   * When QC waits for the pickup's jobs a completed refund leaves one commission row, whatever fails or is repeated.
   * The wallet has risen by one commission exactly when as many rows lack their credit as credits lack their row.
   */
  lemma OrderlyPaysOnce(start: Race, steps: seq<Step>)
    requires Start(start) && OrderlyRun(start, steps) && End(start, steps).settled.Some?
    ensures var rows, refund := End(start, steps).desk.rows, RefundAmount(start.desk.order.terms);
            && CommissionOnRows(rows) == start.desk.order.terms.commission
            && Total(rows) == RoundToPaise(refund) - refund
            && (start.desk.order.terms.commission > 0 ==>
                  (End(start, steps).desk.wallets.rider
                     == start.desk.wallets.rider + start.desk.order.terms.commission
                   <==> RefusedRows(start, steps) == MissingCredits(start, steps)))
  {
    RaceSettles(start, steps);
    RunKeepsInv(start, steps);
    OrderlyRunSeen(start, steps);
    if start.desk.order.terms.commission > 0 { RiderPaidOnceIff(start, steps); }
  }

  lemma {:induction false} OrderlyConcat(s: Race, first: seq<Step>, rest: seq<Step>)
    ensures OrderlyRun(s, first + rest) <==> OrderlyRun(s, first) && OrderlyRun(End(s, first), rest)
    decreases |first|
  {
    if first == [] {
      assert first + rest == rest;
    } else {
      assert (first + rest)[1..] == first[1..] + rest;
      OrderlyConcat(Next(s, first[0]), first[1..], rest);
    }
  }

  lemma OrderlyTwo(s: Race, a: Step, b: Step)
    ensures OrderlyRun(s, [a, b]) <==> Orderly(s, a) && Orderly(Next(s, a), b)
  {
    assert [a, b][1..] == [b] && [b][1..] == [];
    assert OrderlyRun(Next(Next(s, a), b), []);
  }

  function Fresh(o: Order): Race { Race(Desk(o, map[], Wallets(0, 0, 0)), [], [], None) }

  /** The pickup's credit goes through and its row fails: the flag stays off and the refund credits the rider again. */
  lemma OrderlyCreditsTwice(o: Order, luck: Luck)
    requires AllPresent(o.terms) && !o.pickupPaid && o.status == OtherStatus && o.terms.commission > 0
    requires luck.fails == None && luck.credits
    ensures var steps := [PickUp, Pay(0, true)] + ([DropOff, Load] + [Pass(0), Settle(0, luck)]);
            var s := End(Fresh(o), steps);
            && Start(Fresh(o)) && OrderlyRun(Fresh(o), steps) && s.settled.Some?
            && CommissionOnRows(s.desk.rows) == o.terms.commission && s.desk.wallets.rider == 2 * o.terms.commission
  {
    var refused := Race(Desk(o.(status := InTransit), map[], Wallets(0, 0, o.terms.commission)), [Ended], [], None);
    var returned := o.(status := Returned);
    var open := Race(Desk(returned, map[], Wallets(0, 0, o.terms.commission)), [Ended], [Opened(returned)], None);
    EndConcat(Fresh(o), [PickUp, Pay(0, true)], [DropOff, Load] + [Pass(0), Settle(0, luck)]);
    OrderlyConcat(Fresh(o), [PickUp, Pay(0, true)], [DropOff, Load] + [Pass(0), Settle(0, luck)]);
    RefusedPickup(o);
    EndConcat(refused, [DropOff, Load], [Pass(0), Settle(0, luck)]);
    OrderlyConcat(refused, [DropOff, Load], [Pass(0), Settle(0, luck)]);
    OpenedForQc(o);
    PassedAndSettled(open, returned, luck);
  }

  lemma RefusedPickup(o: Order)
    requires !o.pickupPaid && o.terms.rider && o.terms.commission > 0
    ensures var refused := Desk(o.(status := InTransit), map[], Wallets(0, 0, o.terms.commission));
            End(Fresh(o), [PickUp, Pay(0, true)]) == Race(refused, [Ended], [], None)
    ensures OrderlyRun(Fresh(o), [PickUp, Pay(0, true)])
  {
    EndTwo(Fresh(o), PickUp, Pay(0, true));
    OrderlyTwo(Fresh(o), PickUp, Pay(0, true));
  }

  lemma OpenedForQc(o: Order)
    requires !o.pickupPaid
    ensures var returned, wallets := o.(status := Returned), Wallets(0, 0, o.terms.commission);
            var refused := Race(Desk(o.(status := InTransit), map[], wallets), [Ended], [], None);
            && End(refused, [DropOff, Load]) == Race(Desk(returned, map[], wallets), [Ended], [Opened(returned)], None)
            && OrderlyRun(refused, [DropOff, Load])
  {
    var refused := Race(Desk(o.(status := InTransit), map[], Wallets(0, 0, o.terms.commission)), [Ended], [], None);
    EndTwo(refused, DropOff, Load);
    OrderlyTwo(refused, DropOff, Load);
  }

  lemma PassedAndSettled(s: Race, loaded: Order, luck: Luck)
    requires s.calls == [Opened(loaded)] && s.desk.rows == map[] && AllPresent(loaded.terms) && !loaded.pickupPaid
    requires loaded.terms.commission > 0 && luck.fails == None && luck.credits
    ensures var t := End(s, [Pass(0), Settle(0, luck)]);
            && t.settled.Some? && OrderlyRun(s, [Pass(0), Settle(0, luck)])
            && CommissionOnRows(t.desk.rows) == loaded.terms.commission
            && t.desk.wallets.rider == s.desk.wallets.rider + loaded.terms.commission
  {
    var passed := loaded.(status := QcPassed);
    EndTwo(s, Pass(0), Settle(0, luck));
    OrderlyTwo(s, Pass(0), Settle(0, luck));
    RefundTotal(Next(s, Pass(0)).desk, passed, luck);
    RefundPaysRider(Next(s, Pass(0)).desk, passed, luck);
  }

  /** Two QC handlers that load the order before either saves it: the customer is credited twice, with no failure. */
  lemma TwoHandlersCreditTwice(o: Order, luck: Luck)
    requires AllPresent(o.terms) && !o.pickupPaid && o.status == OtherStatus && luck.fails == None
    ensures var steps := [DropOff, Load] + ([Load, Pass(0)] + ([Pass(1), Settle(0, luck)] + [Settle(1, luck)]));
            var s := End(Fresh(o), steps);
            && Start(Fresh(o)) && s.settled.Some?
            && s.desk.wallets.customer == 2 * ValueOf(CustomerRow(o.terms))
  {
    var r, p := o.(status := Returned), o.(status := QcPassed);
    var one := Race(Desk(r, map[], Wallets(0, 0, 0)), [], [Opened(r)], None);
    var two := Race(Desk(p, map[], Wallets(0, 0, 0)), [], [Passed(p), Opened(r)], None);
    EndConcat(Fresh(o), [DropOff, Load], [Load, Pass(0)] + ([Pass(1), Settle(0, luck)] + [Settle(1, luck)]));
    FirstHandler(o);
    EndConcat(one, [Load, Pass(0)], [Pass(1), Settle(0, luck)] + [Settle(1, luck)]);
    SecondHandler(o);
    EndConcat(two, [Pass(1), Settle(0, luck)], [Settle(1, luck)]);
    BothSettle(two, p, luck);
  }

  lemma FirstHandler(o: Order)
    ensures var r := o.(status := Returned);
            End(Fresh(o), [DropOff, Load]) == Race(Desk(r, map[], Wallets(0, 0, 0)), [], [Opened(r)], None)
  {
    EndTwo(Fresh(o), DropOff, Load);
  }

  lemma SecondHandler(o: Order)
    ensures var r, p := o.(status := Returned), o.(status := QcPassed);
            End(Race(Desk(r, map[], Wallets(0, 0, 0)), [], [Opened(r)], None), [Load, Pass(0)])
              == Race(Desk(p, map[], Wallets(0, 0, 0)), [], [Passed(p), Opened(r)], None)
  {
    EndTwo(Race(Desk(o.(status := Returned), map[], Wallets(0, 0, 0)), [], [Opened(o.(status := Returned))], None),
           Load, Pass(0));
  }

  lemma BothSettle(s: Race, p: Order, luck: Luck)
    requires p.status == QcPassed && s.desk.rows == map[] && luck.fails == None
    requires |s.calls| == 2 && s.calls[0] == Passed(p) && s.calls[1].Opened?
    requires s.calls[1].order.(status := QcPassed) == p
    ensures var t := End(End(s, [Pass(1), Settle(0, luck)]), [Settle(1, luck)]);
            && t.settled.Some?
            && t.desk.wallets.customer == s.desk.wallets.customer + 2 * ValueOf(CustomerRow(p.terms))
  {
    EndTwo(s, Pass(1), Settle(0, luck));
    assert Next(s, Pass(1)).calls == [Passed(p), Passed(p)];
    SettledTwice(Next(s, Pass(1)), p, luck);
    EndOne(Next(Next(s, Pass(1)), Settle(0, luck)), Settle(1, luck));
  }

  lemma SettledTwice(s: Race, p: Order, luck: Luck)
    requires s.calls == [Passed(p), Passed(p)] && p.status == QcPassed && s.desk.rows == map[] && luck.fails == None
    ensures var t := Next(Next(s, Settle(0, luck)), Settle(1, luck));
            && t.settled.Some?
            && t.desk.wallets.customer == s.desk.wallets.customer + 2 * ValueOf(CustomerRow(p.terms))
  {
    var once := Next(s, Settle(0, luck));
    RefundOutcome(s.desk, p, luck);
    assert once.calls == [Over, Passed(p)];
    RefundOutcome(once.desk, p, luck);
    RowsTotal(s.desk.rows, p);
  }
}
