/** orderAutoCancelJob.js, payment expiry: the scan, the guarded update and the compensation of one order. */
module OrderTimeout {
  import opened Wrappers

  type OrderId = nat

  type ProductId = nat

  /** Stock of products, a unit of a product being 1/1000 of its quantity. */
  type Units = multiset<ProductId>

  datatype Workflow = Created | SellerPending | SellerAccepted | DeliverySearch | DeliveryAssigned | PickupReady
                    | OutForDelivery | Delivered | Cancelled

  datatype Payment = Unpaid | PendingCash | Paid | CashCollected | PartlyRemitted | CodReconciled | Failed | Refunded

  datatype Reservation = Reserved | Committed | Released

  /**
   * The fields of an order that the job reads or writes: `timedOut` stands for the cancel reason "Payment timeout",
   * `held` for the stock its items have taken out.
   */
  datatype Order = Order(version: nat, workflow: Workflow, online: bool, payment: Payment,
                         reservation: Reservation, expiresAt: Option<int>, timedOut: bool, held: Units)

  /** The query of the scan. */
  predicate Expired(o: Order, now: int) {
    o.version >= 2 && o.workflow == Created && o.online && o.payment != Paid &&
    o.reservation != Released && o.expiresAt.Some? && o.expiresAt.value <= now
  }

  /** The filter of the guarded update: nothing but status and payment is asked again. */
  predicate Guard(o: Order) { o.workflow == Created && o.payment != Paid }

  /** What the guarded update sets. */
  function TimeOut(o: Order): Order { o.(workflow := Cancelled, timedOut := true) }

  function Release(o: Order): Order { o.(reservation := Released) }

  /** What one row of the job does to its order when nobody interferes. */
  function Outcome(o: Order): Order { if Guard(o) then Release(TimeOut(o)) else o }

  /** The stock that releasing an order puts back, judged by the reservation as it was read. */
  function Returned(o: Order, seen: Reservation): Units { if seen == Released then multiset{} else o.held }

  // ---------- stock held by a set of orders ----------

  function Holding(o: Order): Units { Returned(o, o.reservation) }

  ghost function Held(orders: map<OrderId, Order>): Units
    decreases |orders|
  {
    if orders == map[] then multiset{}
    else
      var id :| id in orders;
      Holding(orders[id]) + Held(orders - {id})
  }

  lemma {:induction false} HeldWithout(orders: map<OrderId, Order>, id: OrderId)
    requires id in orders
    ensures Held(orders) == Holding(orders[id]) + Held(orders - {id})
    decreases |orders|
  {
    var x :| x in orders && Held(orders) == Holding(orders[x]) + Held(orders - {x});
    if x != id {
      HeldWithout(orders - {x}, id);
      HeldWithout(orders - {id}, x);
      assert orders - {x} - {id} == orders - {id} - {x};
    }
  }

  lemma HeldUpdate(orders: map<OrderId, Order>, id: OrderId, o: Order)
    ensures Held(orders[id := o]) == Held(orders - {id}) + Holding(o)
    ensures Held(orders) == Held(orders - {id}) + if id in orders then Holding(orders[id]) else multiset{}
  {
    HeldWithout(orders[id := o], id);
    assert orders[id := o] - {id} == orders - {id};
    if id in orders { HeldWithout(orders, id); } else { assert orders - {id} == orders; }
  }

  /** The job on its own: one replica, no one else writing meanwhile. */
  class OrderCollection {
    var orders: map<OrderId, Order>
    var stock: Units

    method FindExpired(now: int) returns (rows: set<OrderId>)
      ensures rows == set id | id in orders && Expired(orders[id], now)
    {
      rows := set id | id in orders && Expired(orders[id], now);
    }

    /** findOneAndUpdate with the guard in its filter. */
    method TimeOutIfUnpaid(id: OrderId) returns (updated: bool)
      modifies this`orders
      ensures updated <==>
        id in old(orders) && old(orders)[id].workflow == Created && old(orders)[id].payment != Paid
      ensures orders ==
        if updated then old(orders)[id := old(orders)[id].(workflow := Cancelled, timedOut := true)] else old(orders)
    {
      updated := id in orders && Guard(orders[id]);
      if updated { orders := orders[id := TimeOut(orders[id])]; }
    }

    method Compensate(id: OrderId)
      requires id in orders
      modifies this
      ensures orders == old(orders)[id := old(orders)[id].(reservation := Released)]
      ensures stock == old(stock) + if old(orders)[id].reservation == Released then multiset{} else old(orders)[id].held
    {
      stock := stock + Returned(orders[id], orders[id].reservation);
      orders := orders[id := Release(orders[id])];
    }

    method CancelRow(id: OrderId)
      requires id in orders
      modifies this
      ensures orders == old(orders)[id := Outcome(old(orders)[id])]
      ensures stock + Held(orders) == old(stock) + Held(old(orders))
    {
      HeldUpdate(orders, id, Outcome(orders[id]));
      var updated := TimeOutIfUnpaid(id);
      if updated {
        Compensate(id);
      }
    }

    /**
     * Cancels and releases exactly the orders of version 2 that wait unpaid for an online payment whose time is over;
     * stock in hand and stock held add up as before.
     */
    method CancelExpired(now: int)
      modifies this
      ensures orders.Keys == old(orders.Keys)
      ensures forall id :: id in orders ==>
        var was := old(orders)[id];
        orders[id] ==
          if was.version >= 2 && was.workflow == Created && was.online && was.payment != Paid &&
             was.reservation != Released && was.expiresAt.Some? && was.expiresAt.value <= now
          then was.(workflow := Cancelled, timedOut := true, reservation := Released)
          else was
      ensures stock + Held(orders) == old(stock) + Held(old(orders))
    {
      var rows := FindExpired(now);
      ghost var was, all := orders, rows;
      while rows != {}
        invariant rows <= all && orders.Keys == was.Keys
        invariant forall id :: id in was ==> orders[id] == if id in all - rows then Outcome(was[id]) else was[id]
        invariant stock + Held(orders) == old(stock) + Held(was)
      {
        var id :| id in rows;
        CancelRow(id);
        rows := rows - {id};
      }
    }
  }
}
